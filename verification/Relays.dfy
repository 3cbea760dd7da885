// The 40 relays and inputs packed into six bytes: the real_banks table of
// thread_io/cmd_tasks.c and the register access of thread_io/ioports.c.

module Relays {
  import opened Bits

  const NUM_PORTS := 6
  const NUM_DATA_RECS := 40

  datatype RealBank = RealBank(i: int, bank: int, index: int)

  function Bank(port: nat): (bank: nat)
    requires port < NUM_DATA_RECS
    ensures bank < NUM_PORTS
  {
    if port < 20 then port / 8 else (port + 4) / 8
  }

  function Index(port: nat): (bit: nat)
    requires port < NUM_DATA_RECS
    ensures bit < 8
  {
    if port < 20 then port - 8 * Bank(port) else port - 8 * Bank(port) + 4
  }

  /** Is this bit of this bank connected?  The third byte of each card has four bits. */
  predicate Wired(bank: nat, bit: nat) {
    bank < NUM_PORTS && bit < 8 && (bank == 2 || bank == 5 ==> bit < 4)
  }

  /** real_banks is a bijection between the 40 ports and the wired bits. */
  lemma RealBanksBijective(p: nat, q: nat, bank: nat, bit: nat)
    requires p < NUM_DATA_RECS && q < NUM_DATA_RECS
    ensures Bank(p) == Bank(q) && Index(p) == Index(q) ==> p == q
    ensures Wired(Bank(p), Index(p))
    ensures Wired(bank, bit) ==> exists port: nat :: port < NUM_DATA_RECS && Bank(port) == bank && Index(port) == bit
  {
    if Wired(bank, bit) {
      var port := if bank < 3 then 8 * bank + bit else 8 * bank + bit - 4;
      assert Bank(port) == bank && Index(port) == bit;
    }
  }

  /** The two loops that fill the table. */
  method FillRealBanks(table: array<RealBank>)
    requires table.Length == NUM_DATA_RECS
    modifies table
    ensures forall i: nat :: i < NUM_DATA_RECS ==> table[i] == RealBank(i, Bank(i), Index(i))
  {
    for i := 0 to 20
      invariant forall k: nat :: k < i ==> table[k] == RealBank(k, Bank(k), Index(k))
    {
      var bank := i / 8;
      table[i] := RealBank(i, bank, i - bank * 8);
    }
    for i := 20 to 40
      invariant forall k: nat :: k < i ==> table[k] == RealBank(k, Bank(k), Index(k))
    {
      var bank := (i + 4) / 8;
      table[i] := RealBank(i, bank, i - bank * 8 + 4);
    }
  }

  // ---------- six bytes as forty switches ----------

  /** What the packed bytes say about each port. */
  function Unpack(bytes: seq<Byte>): (r: seq<bool>)
    requires |bytes| == NUM_PORTS
    ensures |r| == NUM_DATA_RECS
    ensures forall p: nat :: p < NUM_DATA_RECS ==> r[p] == BitOn(bytes[Bank(p)], Index(p))
  {
    seq(NUM_DATA_RECS, p requires 0 <= p < NUM_DATA_RECS => BitOn(bytes[Bank(p)], Index(p)))
  }

  function Written(bytes: seq<Byte>, port: nat, on: bool): (r: seq<Byte>)
    requires |bytes| == NUM_PORTS && port < NUM_DATA_RECS
    ensures |r| == NUM_PORTS
  {
    bytes[Bank(port) := SetBit(bytes[Bank(port)], Index(port), on)]
  }

  /** One packed write is one map update. */
  lemma WrittenReads(bytes: seq<Byte>, port: nat, on: bool)
    requires |bytes| == NUM_PORTS && port < NUM_DATA_RECS
    ensures Unpack(Written(bytes, port, on)) == Unpack(bytes)[port := on]
  {
    var r := Unpack(Written(bytes, port, on));
    forall p: nat | p < NUM_DATA_RECS ensures r[p] == Unpack(bytes)[port := on][p] {
      RealBanksBijective(p, port, 0, 0);
      if Bank(p) == Bank(port) {
        SetBitReads(bytes[Bank(port)], Index(port), on, Index(p));
      }
    }
  }

  function WriteAll(bytes: seq<Byte>, ws: seq<(nat, bool)>): (r: seq<Byte>)
    requires |bytes| == NUM_PORTS && forall w :: w in ws ==> w.0 < NUM_DATA_RECS
    ensures |r| == NUM_PORTS
  {
    if ws == [] then bytes
    else
      var w := ws[|ws| - 1];
      assert w in ws;
      Written(WriteAll(bytes, ws[..|ws| - 1]), w.0, w.1)
  }

  /** The value last written to a port, or what it was before. */
  function LastWrite(ws: seq<(nat, bool)>, port: nat, before: bool): bool {
    if ws == [] then before
    else if ws[|ws| - 1].0 == port then ws[|ws| - 1].1
    else LastWrite(ws[..|ws| - 1], port, before)
  }

  /** After any writes, every port reads back the value last written to it. */
  lemma {:induction false} PackedRelaysRefineMap(bytes: seq<Byte>, ws: seq<(nat, bool)>, port: nat)
    requires |bytes| == NUM_PORTS && port < NUM_DATA_RECS && forall w :: w in ws ==> w.0 < NUM_DATA_RECS
    ensures Unpack(WriteAll(bytes, ws))[port] == LastWrite(ws, port, Unpack(bytes)[port])
    decreases |ws|
  {
    if ws != [] {
      var w, init := ws[|ws| - 1], ws[..|ws| - 1];
      assert w in ws;
      PackedRelaysRefineMap(bytes, init, port);
      WrittenReads(WriteAll(bytes, init), w.0, w.1);
    }
  }

  /** The relay card and the shadow of its write-only registers. */
  class Card {
    const outportstatus: array<Byte>
    const registers: array<Byte>

    /** Banks written at least once. */
    ghost var driven: set<nat>

    ghost predicate Valid()
      reads this, outportstatus, registers
    {
      && outportstatus.Length == NUM_PORTS && registers.Length == NUM_PORTS
      && outportstatus != registers
      && forall b: nat :: b in driven ==> b < NUM_PORTS && registers[b] == outportstatus[b]
    }

    ghost function Relays(): seq<bool>
      reads this, outportstatus, registers
      requires Valid()
    {
      Unpack(outportstatus[..])
    }

    constructor (card: array<Byte>)
      requires card.Length == NUM_PORTS
      ensures Valid() && registers == card && fresh(outportstatus) && driven == {}
      ensures outportstatus[..] == [0, 0, 0, 0, 0, 0]
    {
      outportstatus := new Byte[NUM_PORTS](_ => 0);
      registers := card;
      driven := {};
    }

    /** OutPortA .. OutPortF: update the shadow byte and send it to the card. */
    method OutPort(bank: nat, onoff: int, bit: nat)
      requires Valid() && bank < NUM_PORTS && bit < 8
      modifies this, outportstatus, registers
      ensures Valid() && driven == old(driven) + {bank}
      ensures outportstatus[..] == old(outportstatus[..])[bank := SetBit(old(outportstatus[bank]), bit, onoff != 0)]
    {
      var state := Update(outportstatus[bank], onoff, bit);
      Store(bank, state);
    }

    method Update(shadow: Byte, onoff: int, bit: nat) returns (state: Byte)
      requires bit < 8
      ensures state == SetBit(shadow, bit, onoff != 0)
    {
      state := shadow;
      var mask := MaskByShifting(bit);
      if onoff != 0 {
        state := state | mask;
      } else {
        state := state & !mask;
      }
    }

    method Store(bank: nat, state: Byte)
      requires Valid() && bank < NUM_PORTS
      modifies this, outportstatus, registers
      ensures Valid() && driven == old(driven) + {bank}
      ensures outportstatus[..] == old(outportstatus[..])[bank := state]
    {
      outportstatus[bank] := state;
      registers[bank] := state;
      driven := driven + {bank};
    }

    method MaskByShifting(bit: nat) returns (mask: Byte)
      requires bit < 8
      ensures mask == Mask(bit)
    {
      mask := 1;
      for i := 0 to bit
        invariant mask == Mask(i)
      {
        mask := mask << 1;
      }
    }

    /** change_output: look up the port's bank and bit and write them. */
    method ChangeOutput(port: nat, onoff: int)
      requires Valid() && port < NUM_DATA_RECS
      modifies this, outportstatus, registers
      ensures Valid() && driven == old(driven) + {Bank(port)}
      ensures Relays() == old(Relays())[port := onoff != 0]
      ensures forall p: nat :: p < NUM_DATA_RECS && Bank(p) in driven ==> Unpack(registers[..])[p] == Relays()[p]
    {
      WrittenReads(outportstatus[..], port, onoff != 0);
      OutPort(Bank(port), onoff, Index(port));
    }

    /** ToggleOutPortA, for port A only; out-of-range numbers mean bit 7. */
    method ToggleOutPortA(port: nat)
      requires Valid()
      modifies this, outportstatus, registers
      ensures Valid() && driven == old(driven) + {0}
      ensures var bit := if port < 7 then port else 7;
              Relays() == old(Relays())[bit := !old(Relays())[bit]]
    {
      var bit := if port < 7 then port else 7;
      var temp := Toggled(outportstatus[0], bit);
      WrittenReads(outportstatus[..], bit, !BitOn(outportstatus[0], bit));
      Store(0, temp);
    }

    method Toggled(shadow: Byte, bit: nat) returns (temp: Byte)
      requires bit < 8
      ensures temp == SetBit(shadow, bit, !BitOn(shadow, bit))
    {
      var mask := MaskByShifting(bit);
      temp := shadow & mask;
      temp := !temp;
      temp := temp & (mask | shadow);
      ToggleLaw(shadow, bit);
    }

    static lemma ToggleLaw(b: Byte, bit: nat)
      requires bit < 8
      ensures !(b & Mask(bit)) & (Mask(bit) | b) == SetBit(b, bit, !BitOn(b, bit))
    {
      MaskCases(bit);
    }
  }
}
