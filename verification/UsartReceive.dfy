// The receiving half of the interrupt-driven USART (XMEGA/usart_driver.c), with the
// main program split into single accesses as in UsartTransmit.

module UsartReceive {
  import opened Ring

  /** Which access of the reading program comes next. */
  datatype Pc =
    | Ready
    | AtAvailHead                 // Available: read RX_Head
    | AtAvailTail(head: nat)      // Available: read RX_Tail and compare
    | AtRead                      // GetByte: read RX[RX_Tail]
    | AtAdvance(ans: Byte)        // GetByte: advance RX_Tail

  /** `arrived` logs every received byte with whether RXComplete kept it, `got`
      the bytes GetByte returned. */
  datatype State = State(rx: seq<Byte>, head: nat, tail: nat, pc: Pc,
                         arrived: seq<(Byte, bool)>, got: seq<Byte>)

  datatype Event =
    | Poll                    // the main program calls Available, then GetByte if it may
    | Access                  // it makes its next access
    | RxComplete(data: Byte)  // the receive interrupt fires

  predicate Shape(s: State) {
    |s.rx| == SIZE && s.head < SIZE && s.tail < SIZE
  }

  predicate Enabled(s: State, e: Event) {
    Shape(s) &&
    match e
    case Poll => s.pc.Ready?
    case Access => !s.pc.Ready?
    case RxComplete(_) => true
  }

  function Next(s: State, e: Event): State
    requires Enabled(s, e)
  {
    match e
    case Poll => s.(pc := AtAvailHead)
    case Access => NextAccess(s)
    case RxComplete(b) =>
      if Advance(s.head) == s.tail then s.(arrived := s.arrived + [(b, false)])
      else s.(rx := s.rx[s.head := b], head := Advance(s.head), arrived := s.arrived + [(b, true)])
  }

  function NextAccess(s: State): State
    requires Shape(s) && !s.pc.Ready?
  {
    match s.pc
    case AtAvailHead => s.(pc := AtAvailTail(s.head))
    case AtAvailTail(h) => s.(pc := if h != s.tail then AtRead else Ready)
    case AtRead => s.(pc := AtAdvance(s.rx[s.tail]))
    case AtAdvance(ans) => s.(tail := Advance(s.tail), pc := Ready, got := s.got + [ans])
  }

  predicate Init(s: State) {
    |s.rx| == SIZE && s.head == 0 && s.tail == 0 && s.pc == Ready && s.arrived == [] && s.got == []
  }

  function Pending(s: State): seq<Byte>
    requires Shape(s)
  {
    Content(s.rx, s.head, s.tail)
  }

  /** The bytes RXComplete kept. */
  function Kept(arrived: seq<(Byte, bool)>): seq<Byte> {
    if arrived == [] then []
    else
      var a := arrived[|arrived| - 1];
      Kept(arrived[..|arrived| - 1]) + (if a.1 then [a.0] else [])
  }

  lemma KeptAppend(arrived: seq<(Byte, bool)>, a: (Byte, bool))
    ensures Kept(arrived + [a]) == Kept(arrived) + (if a.1 then [a.0] else [])
  {
    assert (arrived + [a])[..|arrived|] == arrived;
  }

  predicate Inv(s: State) {
    && Shape(s)
    && Kept(s.arrived) == s.got + Pending(s)
    && (match s.pc
        case AtAvailTail(h) => h < SIZE && (h != s.tail ==> s.head != s.tail)
        case AtRead => s.head != s.tail
        case AtAdvance(ans) => s.head != s.tail && ans == s.rx[s.tail]
        case _ => true)
  }

  lemma InvAccess(s: State)
    requires Inv(s) && !s.pc.Ready?
    ensures Inv(NextAccess(s))
  {
    if s.pc.AtAdvance? {
      AdvanceTail(s.rx, s.head, s.tail);
    }
  }

  lemma InvInterrupt(s: State, b: Byte)
    requires Inv(s)
    ensures Inv(Next(s, RxComplete(b)))
  {
    KeptAppend(s.arrived, (b, Advance(s.head) != s.tail));
    if Advance(s.head) != s.tail {
      StoreKeepsContent(s.rx, s.head, s.tail, b);
      AdvanceHead(s.rx[s.head := b], s.head, s.tail);
    }
  }

  predicate Trace(s: State, es: seq<Event>, r: State)
    decreases es
  {
    if es == [] then s == r
    else Enabled(s, es[0]) && Trace(Next(s, es[0]), es[1..], r)
  }

  lemma {:induction false} InvTrace(s: State, es: seq<Event>, r: State)
    requires Inv(s) && Trace(s, es, r)
    ensures Inv(r)
    decreases es
  {
    if es != [] {
      match es[0] {
        case Poll =>
        case Access => InvAccess(s);
        case RxComplete(b) => InvInterrupt(s, b);
      }
      InvTrace(Next(s, es[0]), es[1..], r);
    }
  }

  /** Under every interleaving: what GetByte returned is a prefix of what the
      interrupt kept, the rest is in the ring, and the next arrival is dropped
      exactly when 127 bytes are waiting. */
  lemma ReceivesInOrder(s: State, es: seq<Event>, r: State, b: Byte)
    requires Init(s) && Trace(s, es, r)
    ensures Shape(r) && r.got + Pending(r) == Kept(r.arrived)
    ensures r.got <= Kept(r.arrived)
    ensures Kept(Next(r, RxComplete(b)).arrived)
         == Kept(r.arrived) + (if |Pending(r)| == SIZE - 1 then [] else [b])
  {
    InvTrace(s, es, r);
    KeptAppend(r.arrived, (b, Advance(r.head) != r.tail));
  }

  // ---------- a poll returns the oldest byte ----------

  /** How many accesses are left of a poll that finds something. */
  function Left(pc: Pc): nat {
    match pc
    case Ready => 0
    case AtAvailHead => 4
    case AtAvailTail(_) => 3
    case AtRead => 2
    case AtAdvance(_) => 1
  }

  function Accesses(es: seq<Event>): nat {
    if es == [] then 0 else (if es[0].Access? then 1 else 0) + Accesses(es[1..])
  }

  /** A poll under way that will return x: x is the oldest byte, and Available has not missed it. */
  predicate WillReturn(s: State, x: Byte) {
    && Inv(s) && !s.pc.Ready? && s.head != s.tail && Pending(s)[0] == x
    && (s.pc.AtAvailTail? ==> s.pc.head != s.tail)
  }

  lemma OldestStays(s: State, b: Byte, x: Byte)
    requires WillReturn(s, x)
    ensures WillReturn(Next(s, RxComplete(b)), x)
  {
    InvInterrupt(s, b);
    if Advance(s.head) != s.tail {
      StoreKeepsContent(s.rx, s.head, s.tail, b);
      AdvanceHead(s.rx[s.head := b], s.head, s.tail);
    }
  }

  lemma PollStep(s: State, x: Byte)
    requires WillReturn(s, x)
    ensures
      var t := NextAccess(s);
      && Left(t.pc) == Left(s.pc) - 1
      && (if s.pc.AtAdvance? then t.got == s.got + [x] else WillReturn(t, x) && t.got == s.got)
  {
    InvAccess(s);
    AdvanceTail(s.rx, s.head, s.tail);
  }

  lemma {:induction false} NothingRead(s: State, es: seq<Event>, r: State)
    requires Trace(s, es, r) && s.pc.Ready? && Accesses(es) == 0 && Poll !in es
    ensures r.pc.Ready? && r.got == s.got
    decreases es
  {
    if es != [] {
      NothingRead(Next(s, es[0]), es[1..], r);
    }
  }

  lemma {:induction false} PollReturns(s: State, es: seq<Event>, r: State, x: Byte)
    requires WillReturn(s, x) && Trace(s, es, r) && Poll !in es && Accesses(es) == Left(s.pc)
    ensures r.pc.Ready? && r.got == s.got + [x]
    decreases es
  {
    match es[0] {
      case Access =>
        PollStep(s, x);
        if s.pc.AtAdvance? {
          NothingRead(Next(s, es[0]), es[1..], r);
        } else {
          PollReturns(Next(s, es[0]), es[1..], r, x);
        }
      case RxComplete(b) =>
        OldestStays(s, b, x);
        PollReturns(Next(s, es[0]), es[1..], r, x);
    }
  }

  /** Main result: with bytes pending, a poll and its four accesses return the oldest one, whatever
      the interrupt does in between. */
  lemma PollDelivers(s: State, es: seq<Event>, r: State, more: seq<Event>, q: State)
    requires Init(s) && Trace(s, es, r) && r.pc.Ready? && Shape(r) && Pending(r) != []
    requires Trace(Next(r, Poll), more, q) && Poll !in more && Accesses(more) == 4
    ensures q.pc.Ready? && q.got == r.got + [Pending(r)[0]]
  {
    InvTrace(s, es, r);
    PollReturns(Next(r, Poll), more, q, Pending(r)[0]);
  }

  /** With none pending it returns without reading. */
  lemma EmptyPoll(s: State)
    requires Shape(s) && s.pc.Ready? && Pending(s) == []
    ensures var t := NextAccess(NextAccess(Next(s, Poll))); t == s
  {
  }

  /** The receive half of USART_data_t. */
  class Driver {
    const rx: array<Byte>
    var head: nat
    var tail: nat
    var pc: Pc
    ghost var arrived: seq<(Byte, bool)>
    ghost var got: seq<Byte>

    ghost function View(): State
      reads this, rx
    {
      State(rx[..], head, tail, pc, arrived, got)
    }

    constructor ()
      ensures Init(View()) && fresh(rx)
    {
      rx := new Byte[SIZE];
      head, tail, pc := 0, 0, Ready;
      arrived, got := [], [];
    }

    /** One shared access of USART_RXBufferData_Available or USART_RXBuffer_GetByte. */
    method Access()
      requires Enabled(View(), Event.Access)
      modifies this
      ensures View() == Next(old(View()), Event.Access)
    {
      match pc {
        case AtAvailHead =>
          pc := AtAvailTail(head);
        case AtAvailTail(h) =>
          pc := if h != tail then AtRead else Ready;
        case AtRead =>
          pc := AtAdvance(rx[tail]);
        case AtAdvance(ans) =>
          tail := (tail + 1) % SIZE;
          pc := Ready;
          got := got + [ans];
      }
    }

    /** The receive interrupt routine; false when the byte is dropped. */
    method RxComplete(data: Byte) returns (ans: bool)
      requires Enabled(View(), Event.RxComplete(data))
      modifies this, rx
      ensures View() == Next(old(View()), Event.RxComplete(data))
      ensures arrived == old(arrived) + [(data, ans)]
    {
      var next := (head + 1) % SIZE;
      ans := next != tail;
      if ans {
        rx[head] := data;
        head := next;
      }
      arrived := arrived + [(data, ans)];
    }
  }
}
