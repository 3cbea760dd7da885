// From inputs to outputs: the inverted index that init_ips builds, and what a
// changed input bit drives.

module EngineInputs {
  import opened Bits
  import opened Relays
  import opened Records
  import opened Engine
  import OutputList
  import EngineSafety

  const CELLS := 1600

  /** Is output `port` assigned to input `input`? */
  predicate Assigned(recs: seq<Rec>, input: nat, port: nat)
    requires |recs| == NUM_DATA_RECS && port < NUM_DATA_RECS
  {
    Drives(recs[port], input, port)
  }

  /** The index after the first n of the 40 x 40 (input, port) pairs. */
  function IndexUpto(recs: seq<Rec>, n: nat): seq<Ip>
    requires |recs| == NUM_DATA_RECS && n <= CELLS
  {
    if n == 0 then []
    else
      var i, k := (n - 1) / 40, (n - 1) % 40;
      IndexUpto(recs, n - 1) + (if Assigned(recs, i, k) then [Ip(i, k)] else [])
  }

  function FullIndex(recs: seq<Rec>): seq<Ip>
    requires |recs| == NUM_DATA_RECS
  {
    IndexUpto(recs, CELLS)
  }

  function Code(e: Ip): nat {
    e.input * 40 + e.port
  }

  /** In order of input, then port. */
  predicate InOrder(es: seq<Ip>) {
    forall a, b :: 0 <= a < b < |es| ==> Code(es[a]) < Code(es[b])
  }

  predicate Configured(recs: seq<Rec>) {
    |recs| == NUM_DATA_RECS && forall k: nat :: k < NUM_DATA_RECS ==> recs[k].port == k
  }

  /** An entry of the first n pairs is there for a reason. */
  predicate Justified(recs: seq<Rec>, e: Ip, n: nat)
    requires |recs| == NUM_DATA_RECS
  {
    e.port < NUM_DATA_RECS && Code(e) < n && recs[e.port].inputPort == e.input != NO_INPUT
  }

  /** The index holds only assigned pairs, in order and so each once ... */
  lemma {:induction false} IndexSound(recs: seq<Rec>, n: nat)
    requires Configured(recs) && n <= CELLS
    ensures InOrder(IndexUpto(recs, n))
    ensures forall a :: 0 <= a < |IndexUpto(recs, n)| ==> Justified(recs, IndexUpto(recs, n)[a], n)
  {
    if n > 0 {
      IndexSound(recs, n - 1);
      assert Code(Ip((n - 1) / 40, (n - 1) % 40)) == n - 1;
    }
  }

  /** ... and every one of them. */
  lemma {:induction false} IndexComplete(recs: seq<Rec>, n: nat, i: nat, k: nat)
    requires Configured(recs) && n <= CELLS
    requires k < NUM_DATA_RECS && i * 40 + k < n && Assigned(recs, i, k)
    ensures Ip(i, k) in IndexUpto(recs, n)
  {
    var es := IndexUpto(recs, n);
    if i * 40 + k == n - 1 {
      assert (n - 1) / 40 == i && (n - 1) % 40 == k;
      assert es[|es| - 1] == Ip(i, k);
    } else {
      IndexComplete(recs, n - 1, i, k);
      var fs := IndexUpto(recs, n - 1);
      var a :| 0 <= a < |fs| && fs[a] == Ip(i, k);
      assert es[a] == fs[a];
    }
  }

  /** Membership in the index is assignment. */
  lemma IndexExact(recs: seq<Rec>, i: nat, k: nat)
    requires Configured(recs) && i < NUM_DATA_RECS && k < NUM_DATA_RECS
    ensures Ip(i, k) in FullIndex(recs) <==> recs[k].inputPort == i
  {
    IndexSound(recs, CELLS);
    if recs[k].inputPort == i {
      IndexComplete(recs, CELLS, i, k);
    }
  }

  /** A port is assigned to one input only, so no two entries share a port. */
  lemma PortsDistinct(recs: seq<Rec>, n: nat, a: nat, b: nat)
    requires Configured(recs) && n <= CELLS && a < b < |IndexUpto(recs, n)|
    ensures IndexUpto(recs, n)[a].port != IndexUpto(recs, n)[b].port
  {
    IndexSound(recs, n);
    assert Code(IndexUpto(recs, n)[a]) < Code(IndexUpto(recs, n)[b]);
  }

  // ---------- the 40 slots are enough ----------

  /** How many of the first q ports are assigned to an input whose pair comes before pair n. */
  function CountBelow(recs: seq<Rec>, n: nat, q: nat): (c: nat)
    requires |recs| == NUM_DATA_RECS && q <= NUM_DATA_RECS
    ensures c <= q
  {
    if q == 0 then 0
    else
      var r := recs[q - 1];
      CountBelow(recs, n, q - 1) + (if r.inputPort != NO_INPUT && r.inputPort * 40 + q - 1 < n then 1 else 0)
  }

  /** Pair n concerns one port only. */
  lemma {:induction false} CountStep(recs: seq<Rec>, i: nat, k: nat, q: nat)
    requires Configured(recs) && k < NUM_DATA_RECS && q <= NUM_DATA_RECS
    ensures var n := i * 40 + k;
            CountBelow(recs, n + 1, q) == CountBelow(recs, n, q) + (if k < q && Assigned(recs, i, k) then 1 else 0)
  {
    if q > 0 {
      CountStep(recs, i, k, q - 1);
      assert recs[q - 1].port == q - 1;
    }
  }

  lemma {:induction false} CountNone(recs: seq<Rec>, q: nat)
    requires |recs| == NUM_DATA_RECS && q <= NUM_DATA_RECS
    ensures CountBelow(recs, 0, q) == 0
  {
    if q > 0 {
      CountNone(recs, q - 1);
    }
  }

  lemma {:induction false} IndexSize(recs: seq<Rec>, n: nat)
    requires Configured(recs) && n <= CELLS
    ensures |IndexUpto(recs, n)| == CountBelow(recs, n, NUM_DATA_RECS)
  {
    if n == 0 {
      CountNone(recs, NUM_DATA_RECS);
    } else {
      IndexSize(recs, n - 1);
      CountStep(recs, (n - 1) / 40, (n - 1) % 40, NUM_DATA_RECS);
    }
  }

  /** Before an entry is added, fewer than 40 are there. */
  lemma IndexFits(recs: seq<Rec>, i: nat, k: nat)
    requires Configured(recs) && i < NUM_DATA_RECS && k < NUM_DATA_RECS
    ensures var n := i * 40 + k;
            && IndexUpto(recs, n + 1) == IndexUpto(recs, n) + (if Assigned(recs, i, k) then [Ip(i, k)] else [])
            && |IndexUpto(recs, n + 1)| <= NUM_DATA_RECS
  {
    var n := i * 40 + k;
    assert n / 40 == i && n % 40 == k;
    IndexSize(recs, n + 1);
  }

  // ---------- init_ips ----------

  /** struct _ip: port 99 marks a free slot. */
  datatype Slot = Slot(port: int, input: int, name: string)

  const FREE := Slot(99, 0, "")

  /** The list holds record k under index k, and nothing else. */
  predicate Stores(m: map<int, Rec>, recs: seq<Rec>) {
    && Configured(recs)
    && (forall k: nat :: k < NUM_DATA_RECS ==> k in m && m[k] == recs[k])
    && (forall k: int :: k in m ==> 0 <= k < NUM_DATA_RECS)
  }

  function SlotOf(recs: seq<Rec>, e: Ip): Slot
    requires |recs| == NUM_DATA_RECS
  {
    Slot(e.port, e.input, if e.port < NUM_DATA_RECS then recs[e.port].name else "")
  }

  /** The first j slots hold the index of the first n pairs, the others are free. */
  predicate Filled(ip: seq<Slot>, j: int, recs: seq<Rec>, n: nat) {
    && Configured(recs) && n <= CELLS && |ip| == NUM_DATA_RECS
    && j == |IndexUpto(recs, n)| <= NUM_DATA_RECS
    && (forall a :: 0 <= a < j ==> ip[a] == SlotOf(recs, IndexUpto(recs, n)[a]))
    && (forall a :: j <= a < NUM_DATA_RECS ==> ip[a] == FREE)
  }

  /** What a search finds is the assigned record. */
  lemma FoundIsAssigned(m: map<int, Rec>, recs: seq<Rec>, i: nat, k: nat)
    requires Stores(m, recs) && i < NUM_DATA_RECS && k < NUM_DATA_RECS
    ensures (exists x :: x in m && Drives(m[x], i, k)) <==> Assigned(recs, i, k)
    ensures forall x :: x in m && Drives(m[x], i, k) ==> m[x] == recs[k]
  {
    forall x | x in m && Drives(m[x], i, k) ensures x == k {
      assert m[x] == recs[x];
    }
    assert k in m && m[k] == recs[k];
  }

  lemma FillNext(ip: seq<Slot>, j: int, recs: seq<Rec>, i: nat, k: nat)
    requires i < NUM_DATA_RECS && k < NUM_DATA_RECS
    requires Filled(ip, j, recs, i * 40 + k)
    ensures if Assigned(recs, i, k)
            then j < NUM_DATA_RECS && Filled(ip[j := Slot(k, i, recs[k].name)], j + 1, recs, i * 40 + k + 1)
            else Filled(ip, j, recs, i * 40 + k + 1)
  {
    IndexFits(recs, i, k);
  }

  lemma FilledPorts(ip: seq<Slot>, j: int, recs: seq<Rec>)
    requires Filled(ip, j, recs, CELLS)
    ensures forall a :: 0 <= a < j ==> ip[a].port < NUM_DATA_RECS
  {
    IndexSound(recs, CELLS);
    forall a | 0 <= a < j ensures ip[a].port < NUM_DATA_RECS {
      assert ip[a] == SlotOf(recs, IndexUpto(recs, CELLS)[a]);
    }
  }

  /** Inserting a record under its own port is the update of the sequence. */
  lemma StoresInsert(m: map<int, Rec>, recs: seq<Rec>, r: Rec)
    requires Stores(m, recs) && r.port < NUM_DATA_RECS
    ensures Stores(m[r.port as int := r], recs[r.port := r])
  {
  }

  /** Search, write through the pointer and ollist_insert_data(otp->port, &oll, otp) on the linked list
      are what the output tasks do to the sequence of records; the pointer leads to freed data then. */
  method InsertData(oll: OutputList.List, ghost recs: seq<Rec>, r: Rec) returns (otp: OutputList.Data)
    requires oll.Valid() && Stores(oll.Model(), recs) && r.port < NUM_DATA_RECS
    modifies oll, oll.nodes, oll.datas
    ensures oll.Valid() && Stores(oll.Model(), recs[r.port := r])
    ensures otp in oll.freed && otp.rec == r
  {
    StoresInsert(oll.Model(), recs, r);
    otp := oll.Update(r.port, r);
  }

  /** ollist_find_data(port, otpp, &oll). */
  method FindData(oll: OutputList.List, ghost recs: seq<Rec>, port: nat) returns (otp: OutputList.Data)
    requires oll.Valid() && Stores(oll.Model(), recs) && port < NUM_DATA_RECS
    ensures oll.Under(port) == {otp} && otp.rec == recs[port]
  {
    var status, found := oll.Find(port);
    otp := found;
  }

  /** The search of the list for one pair. */
  method LookUp(oll: OutputList.List, ghost recs: seq<Rec>, i: nat, k: nat) returns (found: bool, name: string)
    requires oll.Valid() && Stores(oll.Model(), recs) && i < NUM_DATA_RECS && k < NUM_DATA_RECS
    ensures found <==> Assigned(recs, i, k)
    ensures found ==> name == recs[k].name
  {
    var status, otp := oll.FindOp(i, k);
    FoundIsAssigned(oll.Model(), recs, i, k);
    found := status > -1;
    name := if found then otp.rec.name else "";
  }

  /** One pair: a slot is filled when the search finds a record. */
  method FillCell(oll: OutputList.List, ip: array<Slot>, j: nat, i: nat, k: nat, ghost recs: seq<Rec>)
    returns (j': nat)
    requires oll.Valid() && Stores(oll.Model(), recs) && i < NUM_DATA_RECS && k < NUM_DATA_RECS
    requires Filled(ip[..], j, recs, i * 40 + k)
    modifies ip
    ensures oll.Valid() && Stores(oll.Model(), recs) && Filled(ip[..], j', recs, i * 40 + k + 1)
  {
    var found, name := LookUp(oll, recs, i, k);
    FillNext(ip[..], j, recs, i, k);
    j' := j;
    if found {
      ip[j] := Slot(k, i, name);
      j' := j + 1;
    }
  }

  /** One input's pass over the 40 ports, from slot j on. */
  method FillRow(oll: OutputList.List, ip: array<Slot>, j: nat, i: nat, ghost recs: seq<Rec>) returns (j': nat)
    requires oll.Valid() && Stores(oll.Model(), recs) && i < NUM_DATA_RECS
    requires Filled(ip[..], j, recs, i * 40)
    modifies ip
    ensures oll.Valid() && Stores(oll.Model(), recs) && Filled(ip[..], j', recs, (i + 1) * 40)
  {
    hide Filled, Stores;
    j' := j;
    for k := 0 to NUM_DATA_RECS
      invariant oll.Valid() && Stores(oll.Model(), recs)
      invariant Filled(ip[..], j', recs, i * 40 + k)
    {
      j' := FillCell(oll, ip, j', i, k, recs);
    }
  }

  /** The 40 x 40 searches of the list; never more than 40 slots are filled. */
  method InitIps(oll: OutputList.List, ip: array<Slot>, ghost recs: seq<Rec>) returns (maxIps: nat)
    requires oll.Valid() && Stores(oll.Model(), recs) && ip.Length == NUM_DATA_RECS
    modifies ip
    ensures Filled(ip[..], maxIps, recs, CELLS)
  {
    ClearSlots(ip);
    maxIps := 0;
    for i := 0 to NUM_DATA_RECS
      invariant oll.Valid() && Stores(oll.Model(), recs)
      invariant Filled(ip[..], maxIps, recs, i * 40)
    {
      maxIps := FillRow(oll, ip, maxIps, i, recs);
    }
    FilledPorts(ip[..], maxIps, recs);
    maxIps := CountSlots(ip[..], maxIps);
  }

  method ClearSlots(ip: array<Slot>)
    modifies ip
    ensures forall a :: 0 <= a < ip.Length ==> ip[a] == FREE
  {
    for i := 0 to ip.Length
      invariant forall a :: 0 <= a < i ==> ip[a] == FREE
    {
      ip[i] := FREE;
    }
  }

  /** max_ips: the slots with a real port number. */
  method CountSlots(ip: seq<Slot>, ghost j: nat) returns (maxIps: nat)
    requires |ip| == NUM_DATA_RECS && j <= NUM_DATA_RECS
    requires forall a :: 0 <= a < j ==> ip[a].port < NUM_DATA_RECS
    requires forall a :: j <= a < NUM_DATA_RECS ==> ip[a] == FREE
    ensures maxIps == j
  {
    maxIps := 0;
    for i := 0 to NUM_DATA_RECS
      invariant maxIps == if i < j then i else j
    {
      if ip[i].port < 40 {
        maxIps := maxIps + 1;
      }
    }
  }

  // ---------- a changed bit ----------

  /** The input number a changed bit stands for: its port, or for an unwired bit the bit number itself. */
  function InputBehind(bank: nat, bit: nat): nat
    requires bit < 8
  {
    if !Wired(bank, bit) then bit else if bank < 3 then 8 * bank + bit else 8 * bank + bit - 4
  }

  /** Is this port the given bit of the given bank? */
  predicate IsBit(port: nat, bank: nat, bit: nat) {
    port < NUM_DATA_RECS && Bank(port) == bank && Index(port) == bit
  }

  lemma {:induction false} SearchSettled(bank: nat, index: nat, i: nat)
    requires i <= NUM_DATA_RECS
    requires forall j: nat :: i <= j < NUM_DATA_RECS ==> !(Bank(j) == bank && Index(j) == index)
    ensures SearchFrom(bank, index, i) == index
    decreases NUM_DATA_RECS - i
  {
    if i < NUM_DATA_RECS {
      SearchSettled(bank, index, i + 1);
    }
  }

  lemma {:induction false} SearchFinds(bank: nat, bit: nat, p: nat, i: nat)
    requires i <= p < NUM_DATA_RECS && Bank(p) == bank && Index(p) == bit
    ensures SearchFrom(bank, bit, i) == p
    decreases p - i
  {
    if i == p {
      forall j: nat | p + 1 <= j < NUM_DATA_RECS ensures !(Bank(j) == bank && Index(j) == p) {
      }
      SearchSettled(bank, p, p + 1);
    } else {
      RealBanksBijective(i, p, 0, 0);
      SearchFinds(bank, bit, p, i + 1);
    }
  }

  /** Although the loop overwrites the index it compares with, it ends with the
      port of the changed bit, or with the bit number if no port has it. */
  lemma SearchResult(bank: nat, bit: nat)
    requires bank < NUM_PORTS && bit < 8
    ensures SearchFrom(bank, bit, 0) == InputBehind(bank, bit)
    ensures Wired(bank, bit) ==> IsBit(InputBehind(bank, bit), bank, bit)
  {
    if Wired(bank, bit) {
      SearchFinds(bank, bit, InputBehind(bank, bit), 0);
    } else {
      forall j: nat | j < NUM_DATA_RECS ensures !(Bank(j) == bank && Index(j) == bit) {
        RealBanksBijective(j, j, 0, 0);
      }
      SearchSettled(bank, bit, 0);
    }
  }

  /** What driving an input does to port p: set_output if p is listed, else nothing. */
  predicate DrivenOrKept(s: State, t: State, p: nat, listed: bool, onoff: Uchar)
    requires Shape(s) && Shape(t) && p < NUM_DATA_RECS
  {
    var r := s.recs[p];
    && t.recs[p] == (if listed then OutputRec(r, onoff) else r)
    && t.out[p] == (if listed && OutputFires(r) then OutputRec(r, onoff).onoff != 0 else s.out[p])
  }

  predicate DistinctPorts(es: seq<Ip>) {
    && (forall a :: 0 <= a < |es| ==> es[a].port < NUM_DATA_RECS)
    && forall a, b :: 0 <= a < b < |es| ==> es[a].port != es[b].port
  }

  lemma {:induction false} DrivePort(s: State, es: seq<Ip>, input: nat, onoff: Uchar, p: nat)
    requires Shape(s) && p < NUM_DATA_RECS && DistinctPorts(es)
    ensures DrivenOrKept(s, Drive(s, es, input, onoff), p, Ip(input, p) in es, onoff)
    decreases |es|
  {
    if es != [] {
      var t := if es[0].input == input then SetOutput(s, es[0].port, onoff) else s;
      FirstEntry(es, Ip(input, p));
      DriveOne(s, es[0], input, onoff, p);
      DrivePort(t, es[1..], input, onoff, p);
      DrivenOnce(s, t, Drive(t, es[1..], input, onoff), p, es[0] == Ip(input, p), Ip(input, p) in es[1..], onoff);
    }
  }

  /** An entry of the list is its first one or a later one, and not both. */
  lemma FirstEntry(es: seq<Ip>, e: Ip)
    requires DistinctPorts(es) && es != []
    ensures DistinctPorts(es[1..])
    ensures e in es <==> es[0] == e || e in es[1..]
    ensures !(es[0] == e && e in es[1..])
  {
    assert forall b :: 0 <= b < |es[1..]| ==> es[1..][b].port != es[0].port;
  }

  lemma DriveOne(s: State, e: Ip, input: nat, onoff: Uchar, p: nat)
    requires Shape(s) && p < NUM_DATA_RECS && e.port < NUM_DATA_RECS
    ensures var t := if e.input == input then SetOutput(s, e.port, onoff) else s;
            DrivenOrKept(s, t, p, e == Ip(input, p), onoff)
  {
  }

  /** Of two drives at most one concerns the port. */
  lemma DrivenOnce(s: State, t: State, u: State, p: nat, first: bool, later: bool, onoff: Uchar)
    requires Shape(s) && Shape(t) && Shape(u) && p < NUM_DATA_RECS && !(first && later)
    requires DrivenOrKept(s, t, p, first, onoff) && DrivenOrKept(t, u, p, later, onoff)
    ensures DrivenOrKept(s, u, p, first || later, onoff)
  {
  }

  /** The index belongs to the records. */
  predicate Indexed(s: State) {
    Shape(s) && s.ip == FullIndex(s.recs)
  }

  /** Driving an input through the index reaches exactly the outputs assigned to
      it, each of them once. */
  lemma DriveReachesAssigned(s: State, input: nat, onoff: Uchar, p: nat)
    requires Indexed(s) && input < NUM_DATA_RECS && p < NUM_DATA_RECS
    ensures DrivenOrKept(s, Drive(s, s.ip, input, onoff), p, s.recs[p].inputPort == input, onoff)
  {
    IndexExact(s.recs, input, p);
    IndexSound(s.recs, CELLS);
    forall a, b | 0 <= a < b < |s.ip| ensures s.ip[a].port != s.ip[b].port {
      PortsDistinct(s.recs, CELLS, a, b);
    }
    assert DistinctPorts(s.ip);
    DrivePort(s, s.ip, input, onoff, p);
  }

  lemma SingleBitMask(bit: nat, result: Byte)
    requires bit < 8
    ensures !Ignored(Mask(bit)) && TopBit(Mask(bit)) == bit
    ensures ChangedState(Mask(bit), result) == if BitOn(result, bit) then 1 else 0
  {
    MaskCases(bit);
    TopBitOfMask(bit);
  }

  lemma ReactReachesAssigned(s: State, bank: nat, mask: Byte, result: Byte, bit: nat, p: nat)
    requires Indexed(s) && bank < NUM_PORTS && bit < 8 && p < NUM_DATA_RECS && TopBit(mask) == bit
    ensures DrivenOrKept(s, React(s, bank, mask, result), p, s.recs[p].inputPort == InputBehind(bank, bit),
                         ChangedState(mask, result))
  {
    SearchResult(bank, bit);
    DriveReachesAssigned(s, InputBehind(bank, bit), ChangedState(mask, result), p);
  }

  lemma SameAsDriven(s: State, t: State, u: State, p: nat, listed: bool, onoff: Uchar)
    requires Shape(s) && Shape(t) && Shape(u) && p < NUM_DATA_RECS
    requires DrivenOrKept(s, t, p, listed, onoff) && u.recs == t.recs && u.out == t.out
    ensures DrivenOrKept(s, u, p, listed, onoff)
  {
  }

  lemma ChangedReachesAssigned(s: State, bank: nat, mask: Byte, result: Byte, bit: nat, p: nat)
    requires Indexed(s) && bank < NUM_PORTS && bit < 8 && p < NUM_DATA_RECS
    requires TopBit(mask) == bit && !Ignored(mask)
    ensures DrivenOrKept(s, Changed(s, bank, mask, result), p, s.recs[p].inputPort == InputBehind(bank, bit),
                         ChangedState(mask, result))
    ensures Changed(s, bank, mask, result).inport == s.inport[bank := result]
  {
    ReactReachesAssigned(s, bank, mask, result, bit, p);
    SameAsDriven(s, React(s, bank, mask, result), Changed(s, bank, mask, result), p,
                 s.recs[p].inputPort == InputBehind(bank, bit), ChangedState(mask, result));
  }

  /** A change is ignored when there is none, and when bit 7 is one of several changed bits. */
  lemma IgnoredIff(mask: Byte)
    ensures Ignored(mask) <==> mask == 0 || (BitOn(mask, 7) && exists b: nat :: b < 7 && BitOn(mask, b))
  {
    Masks();
    if mask > 0x80 {
      ZeroByte(mask ^ 0x80);
      var b: nat :| b < 8 && BitOn(mask ^ 0x80, b);
      MaskCases(b);
      assert BitOn(mask, b) && b < 7;
    }
  }

  /** The changed bits are taken for on exactly when all of them are. */
  lemma ChangedStateIff(mask: Byte, result: Byte)
    ensures ChangedState(mask, result) == 1 <==> forall b: nat :: b < 8 && BitOn(mask, b) ==> BitOn(result, b)
  {
    CoversMask(result, mask);
  }

  /** The state given to the outputs behind the highest changed bit is that bit's own exactly when it
      went off, or when every changed bit went on. */
  lemma OwnStateIff(mask: Byte, result: Byte)
    requires mask != 0
    ensures var top := TopBit(mask);
            && IsTopBit(mask, top, 8)
            && (ChangedState(mask, result) == (if BitOn(result, top) then 1 else 0)
                <==> !BitOn(result, top) || forall b: nat :: b < 8 && BitOn(mask, b) ==> BitOn(result, b))
  {
    TopBitIsTop(mask, 8);
    ChangedStateIff(mask, result);
  }

  /** What a pass over a bank does to port p.  An ignored change leaves everything as it was.
      Otherwise exactly the outputs assigned to the input behind the highest changed bit get one
      set_output, "on" only if every changed bit is on, and the byte is remembered. */
  predicate FollowsTopBit(s: State, t: State, bank: nat, mask: Byte, result: Byte, p: nat)
    requires Shape(s) && Shape(t) && bank < NUM_PORTS && p < NUM_DATA_RECS
  {
    if Ignored(mask) then t == s
    else
      var top := TopBit(mask);
      && IsTopBit(mask, top, 8)
      && DrivenOrKept(s, t, p, s.recs[p].inputPort == InputBehind(bank, top), ChangedState(mask, result))
      && t.inport == s.inport[bank := result]
  }

  /** The input task on any reading of a bank. */
  lemma AnyEdge(s: State, bank: nat, raw: Byte, p: nat)
    requires Indexed(s) && bank < NUM_PORTS && p < NUM_DATA_RECS
    ensures FollowsTopBit(s, Edge(s, bank, raw), bank, !raw ^ s.inport[bank], !raw, p)
  {
    AnyChange(s, bank, !raw ^ s.inport[bank], !raw, p);
  }

  lemma AnyChange(s: State, bank: nat, mask: Byte, result: Byte, p: nat)
    requires Indexed(s) && bank < NUM_PORTS && p < NUM_DATA_RECS
    ensures FollowsTopBit(s, Changed(s, bank, mask, result), bank, mask, result, p)
  {
    if !Ignored(mask) {
      TopBitIsTop(mask, 8);
      ChangedReachesAssigned(s, bank, mask, result, TopBit(mask), p);
    }
  }

  /** An instance: bit 1 goes off while bit 3 goes on.  The outputs behind bit 3 are driven as if it
      had gone off, and the bit is remembered as on. */
  lemma OnTakenForOff(s: State, bank: nat, p: nat)
    requires Indexed(s) && bank < NUM_PORTS && p < NUM_DATA_RECS && s.inport[bank] == 0x02
    ensures var t := Edge(s, bank, !0x08);
            && DrivenOrKept(s, t, p, s.recs[p].inputPort == InputBehind(bank, 3), 0)
            && t.inport == s.inport[bank := 0x08] && BitOn(0x08, 3)
  {
    Masks();
    TopBitOfTen();
    ChangedReachesAssigned(s, bank, 0x0A, 0x08, 3, p);
  }

  lemma TopBitOfTen()
    ensures TopBit(0x0A) == 3 && ChangedState(0x0A, 0x08) == 0 && !Ignored(0x0A)
  {
    assert TopBit(2) == 1 && TopBit(5) == 2;
  }

  /** The input task on a single changed bit: every output assigned to the input
      behind the bit gets one set_output with the bit's new state, no other output
      moves, and the byte is remembered. */
  lemma SingleBitEdge(s: State, bank: nat, raw: Byte, bit: nat, p: nat)
    requires Indexed(s) && bank < NUM_PORTS && bit < 8 && p < NUM_DATA_RECS
    requires !raw ^ s.inport[bank] == Mask(bit)
    ensures DrivenOrKept(s, Edge(s, bank, raw), p, s.recs[p].inputPort == InputBehind(bank, bit),
                         if BitOn(!raw, bit) then 1 else 0)
    ensures Edge(s, bank, raw).inport == s.inport[bank := !raw]
  {
    SingleBitMask(bit, !raw);
    ChangedReachesAssigned(s, bank, Mask(bit), !raw, bit, p);
  }

  /** The simulated inputs on a single changed bit, in the same way. */
  lemma SingleBitFake(s: State, bank: nat, bit: nat, p: nat)
    requires Indexed(s) && bank < NUM_PORTS && bit < 8 && p < NUM_DATA_RECS
    requires s.fake2[bank] ^ s.fake1[bank] == Mask(bit)
    ensures DrivenOrKept(s, FakeScan(s, bank), p, s.recs[p].inputPort == InputBehind(bank, bit),
                         if BitOn(s.fake2[bank], bit) then 1 else 0)
    ensures FakeScan(s, bank).fake1[bank] == FakeScan(s, bank).fake2[bank]
  {
    SingleBitMask(bit, s.fake2[bank]);
    FakeReachesAssigned(s, bank, Mask(bit), s.fake2[bank], bit, p);
  }

  lemma FakeReachesAssigned(s: State, bank: nat, mask: Byte, result: Byte, bit: nat, p: nat)
    requires Indexed(s) && bank < NUM_PORTS && bit < 8 && p < NUM_DATA_RECS
    requires TopBit(mask) == bit && !Ignored(mask)
    ensures
      var t := FakeChanged(s, bank, mask, result);
      && DrivenOrKept(s, t, p, s.recs[p].inputPort == InputBehind(bank, bit), ChangedState(mask, result))
      && t.fake1[bank] == t.fake2[bank]
  {
    ReactReachesAssigned(s, bank, mask, result, bit, p);
    SameAsDriven(s, React(s, bank, mask, result), FakeChanged(s, bank, mask, result), p,
                 s.recs[p].inputPort == InputBehind(bank, bit), ChangedState(mask, result));
  }

  /** The byte a scan writes back: the changed bits are on if all of them went on and otherwise off,
      the others are as they were. */
  lemma RewrittenBits(mask: Byte, result: Byte, bit: nat)
    requires bit < 8
    ensures BitOn(Rewritten(mask, result), bit)
            <==> if BitOn(mask, bit) then forall b: nat :: b < 8 && BitOn(mask, b) ==> BitOn(result, b)
                 else BitOn(result, bit)
  {
    hide ChangedState;
    ChangedStateIff(mask, result);
    BitsJoined(mask, result, bit);
  }

  lemma BitsJoined(mask: Byte, result: Byte, bit: nat)
    requires bit < 8
    ensures BitOn(result | mask, bit) <==> BitOn(mask, bit) || BitOn(result, bit)
    ensures BitOn(result & !mask, bit) <==> !BitOn(mask, bit) && BitOn(result, bit)
  {
    MaskCases(bit);
    OneBitJoined(mask, result, Mask(bit));
  }

  lemma OneBitJoined(mask: Byte, result: Byte, m: Byte)
    requires m == 1 || m == 2 || m == 4 || m == 8 || m == 16 || m == 32 || m == 64 || m == 128
    ensures (result | mask) & m != 0 <==> mask & m != 0 || result & m != 0
    ensures (result & !mask) & m != 0 <==> mask & m == 0 && result & m != 0
  {
  }

  /** The same for the simulated inputs: afterwards both bytes agree. */
  predicate FakeFollowsTopBit(s: State, t: State, bank: nat, mask: Byte, result: Byte, p: nat)
    requires Shape(s) && Shape(t) && bank < NUM_PORTS && p < NUM_DATA_RECS
  {
    if Ignored(mask) then t == s
    else
      var top := TopBit(mask);
      && IsTopBit(mask, top, 8)
      && DrivenOrKept(s, t, p, s.recs[p].inputPort == InputBehind(bank, top), ChangedState(mask, result))
      && t.fake1[bank] == t.fake2[bank] == Rewritten(mask, result)
  }

  lemma AnyFakeScan(s: State, bank: nat, p: nat)
    requires Indexed(s) && bank < NUM_PORTS && p < NUM_DATA_RECS
    ensures FakeFollowsTopBit(s, FakeScan(s, bank), bank, s.fake2[bank] ^ s.fake1[bank], s.fake2[bank], p)
  {
    AnyFakeChange(s, bank, s.fake2[bank] ^ s.fake1[bank], s.fake2[bank], p);
  }

  lemma AnyFakeChange(s: State, bank: nat, mask: Byte, result: Byte, p: nat)
    requires Indexed(s) && bank < NUM_PORTS && p < NUM_DATA_RECS
    ensures FakeFollowsTopBit(s, FakeChanged(s, bank, mask, result), bank, mask, result, p)
  {
    if !Ignored(mask) {
      TopBitIsTop(mask, 8);
      FakeReachesAssigned(s, bank, mask, result, TopBit(mask), p);
    }
  }

  /** The input that is driven is the changed one exactly for the wired bits: the
      upper half of banks 2 and 5 stands for inputs 4 to 7 of bank 0. */
  lemma RightInputIffWired(bank: nat, bit: nat)
    requires bank < NUM_PORTS && bit < 8
    ensures IsBit(InputBehind(bank, bit), bank, bit) <==> Wired(bank, bit)
    ensures !Wired(bank, bit) ==> IsBit(InputBehind(bank, bit), 0, bit)
  {
    SearchResult(bank, bit);
  }

  /** A simulated input acts like a real one: when change_input has set the input's
      bit in a bank that was settled at `byte` before, the next scan of the bank sets
      exactly the outputs assigned to that input. */
  lemma SimulatedInput(s: State, byte: Byte, input: nat, on: bool, p: nat)
    requires Indexed(s) && input < NUM_DATA_RECS && p < NUM_DATA_RECS
    requires s.fake1[Bank(input)] == byte && BitOn(byte, Index(input)) != on
    requires s.fake2[Bank(input)] == SetBit(byte, Index(input), on)
    ensures DrivenOrKept(s, FakeScan(s, Bank(input)), p, s.recs[p].inputPort == input, if on then 1 else 0)
  {
    var bank, bit := Bank(input), Index(input);
    FlipReads(byte, bit, on);
    InputOfItsBit(input);
    SingleBitFake(s, bank, bit, p);
  }

  lemma InputOfItsBit(input: nat)
    requires input < NUM_DATA_RECS
    ensures InputBehind(Bank(input), Index(input)) == input
  {
    RealBanksBijective(input, input, 0, 0);
  }

  lemma FlipReads(b: Byte, bit: nat, on: bool)
    requires bit < 8 && BitOn(b, bit) != on
    ensures SetBit(b, bit, on) ^ b == Mask(bit) && BitOn(SetBit(b, bit, on), bit) == on
  {
    MaskCases(bit);
  }

  /** When a timed output's time is over, the simulated bit with the output's own number goes off: an
      input's bit is off afterwards exactly when it was off or its number is the port's, whichever
      output the input drives. */
  lemma ExpiryClears(s: State, u: Rec, input: nat)
    requires Shape(s) && u.port < NUM_DATA_RECS && input < NUM_DATA_RECS
    ensures
      var t, bank, bit := Expire(s, u), Bank(input), Index(input);
      && (BitOn(t.fake1[bank], bit) <==> BitOn(s.fake1[bank], bit) && input != u.port)
      && (BitOn(t.fake2[bank], bit) <==> BitOn(s.fake2[bank], bit) && input != u.port)
  {
    ClearedBits(s.fake1, u.port, input);
    ClearedBits(s.fake2, u.port, input);
  }

  lemma ClearedBits(bytes: seq<Byte>, port: nat, input: nat)
    requires |bytes| == NUM_PORTS && port < NUM_DATA_RECS && input < NUM_DATA_RECS
    ensures
      var cleared := bytes[Bank(port) := SetBit(bytes[Bank(port)], Index(port), false)];
      BitOn(cleared[Bank(input)], Index(input)) <==> BitOn(bytes[Bank(input)], Index(input)) && input != port
  {
    RealBanksBijective(input, port, 0, 0);
    SetBitReads(bytes[Bank(port)], Index(port), false, Index(input));
  }

  /** The index depends on the input assignments alone, which no event changes. */
  lemma {:induction false} IndexStable(recs: seq<Rec>, recs': seq<Rec>, n: nat)
    requires Configured(recs) && Configured(recs') && n <= CELLS
    requires forall k: nat :: k < NUM_DATA_RECS ==> recs[k].inputPort == recs'[k].inputPort
    ensures IndexUpto(recs, n) == IndexUpto(recs', n)
  {
    if n > 0 {
      IndexStable(recs, recs', n - 1);
    }
  }

  /** The index built at start-up stays right through every run. */
  lemma IndexKept(s: State, es: seq<Event>)
    requires EngineSafety.Init(s) && Indexed(s) && AllLegal(es)
    ensures Indexed(Exec(s, es))
  {
    var t := Exec(s, es);
    EngineSafety.ExecPort(s, es, 0);
    forall k: nat | k < NUM_DATA_RECS ensures s.recs[k].inputPort == t.recs[k].inputPort {
      EngineSafety.ExecPort(s, es, k);
    }
    IndexStable(s.recs, t.recs, CELLS);
  }
}
