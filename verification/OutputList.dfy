// The sorted linked list that stores the output records
// (thread_io/queue/ollist_threads_rw.c).

module OutputList {
  import opened Wrappers
  import opened Records

  datatype Entry = Entry(index: int, data: Rec)

  predicate Sorted(es: seq<Entry>) {
    forall i, j :: 0 <= i < j < |es| ==> es[i].index < es[j].index
  }

  /** The map a list of entries stands for. */
  function ToMap(es: seq<Entry>): map<int, Rec> {
    if es == [] then map[] else ToMap(es[1..])[es[0].index := es[0].data]
  }

  lemma {:induction false} ToMapLookup(es: seq<Entry>, i: nat)
    requires Sorted(es) && i < |es|
    ensures es[i].index in ToMap(es) && ToMap(es)[es[i].index] == es[i].data
  {
    if i > 0 {
      ToMapLookup(es[1..], i - 1);
      assert es[0].index < es[i].index;
    }
  }

  lemma {:induction false} ToMapEntry(es: seq<Entry>, k: int) returns (i: nat)
    requires k in ToMap(es)
    ensures i < |es| && es[i] == Entry(k, ToMap(es)[k])
  {
    if es[0].index == k {
      i := 0;
    } else {
      i := ToMapEntry(es[1..], k);
      i := i + 1;
    }
  }

  /** No entry equals k when all before position p are smaller and the one at p is greater. */
  lemma ToMapMiss(es: seq<Entry>, p: nat, k: int)
    requires Sorted(es) && p <= |es|
    requires forall i :: 0 <= i < p ==> es[i].index < k
    requires p < |es| ==> k < es[p].index
    ensures k !in ToMap(es)
  {
    if k in ToMap(es) {
      var i := ToMapEntry(es, k);
      assert false;
    }
  }

  /** The new node goes to position p: head, middle or tail. */
  lemma {:induction false} ToMapInsert(es: seq<Entry>, p: nat, e: Entry)
    requires p <= |es|
    requires forall i :: 0 <= i < p ==> es[i].index != e.index
    ensures ToMap(es[..p] + [e] + es[p..]) == ToMap(es)[e.index := e.data]
  {
    var r := es[..p] + [e] + es[p..];
    if p == 0 {
      assert r[1..] == es;
    } else {
      var ts := es[1..];
      ToMapInsert(ts, p - 1, e);
      assert r[1..] == ts[..p - 1] + [e] + ts[p - 1..];
      assert r[0] == es[0];
      Commute(ToMap(ts), es[0].index, es[0].data, e.index, e.data);
    }
  }

  lemma Commute(m: map<int, Rec>, i: int, d: Rec, j: int, e: Rec)
    requires i != j
    ensures m[i := d][j := e] == m[j := e][i := d]
  {
  }

  /** An existing node gets new data. */
  lemma {:induction false} ToMapOverwrite(es: seq<Entry>, p: nat, e: Entry)
    requires p < |es| && es[p].index == e.index
    requires forall i :: 0 <= i < p ==> es[i].index != e.index
    ensures ToMap(es[p := e]) == ToMap(es)[e.index := e.data]
  {
    var r := es[p := e];
    if p == 0 {
      assert r[1..] == es[1..];
    } else {
      var ts := es[1..];
      ToMapOverwrite(ts, p - 1, e);
      assert r[1..] == ts[p - 1 := e];
      assert r[0] == es[0];
      Commute(ToMap(ts), es[0].index, es[0].data, e.index, e.data);
    }
  }

  /** The map determines the list, so the maps below describe the whole structure. */
  lemma {:induction false} MapDeterminesList(es: seq<Entry>, fs: seq<Entry>)
    requires Sorted(es) && Sorted(fs) && ToMap(es) == ToMap(fs)
    ensures es == fs
  {
    ToMapEmpty(es);
    ToMapEmpty(fs);
    if es != [] {
      ToMapLookup(es, 0);
      ToMapLookup(fs, 0);
      var i := ToMapEntry(fs, es[0].index);
      var j := ToMapEntry(es, fs[0].index);
      assert es[0] == fs[0];
      TailMap(es);
      TailMap(fs);
      MapDeterminesList(es[1..], fs[1..]);
    }
  }

  lemma ToMapEmpty(es: seq<Entry>)
    ensures ToMap(es) == map[] <==> es == []
  {
    if es != [] {
      assert es[0].index in ToMap(es);
    }
  }

  lemma TailMap(es: seq<Entry>)
    requires Sorted(es) && es != []
    ensures ToMap(es[1..]) == ToMap(es) - {es[0].index}
  {
    ToMapMiss(es[1..], 0, es[0].index);
  }

  /** O_DATA on the heap: what the nodes and the callers' pointers lead to. */
  class Data {
    var rec: Rec

    constructor (rec: Rec)
      ensures this.rec == rec
    {
      this.rec := rec;
    }
  }

  class Node {
    var index: int
    var data: Data
    var next: Node?

    constructor (index: int, data: Data, next: Node?)
      ensures this.index == index && this.data == data && this.next == next
    {
      this.index, this.data, this.next := index, data, next;
    }
  }

  /** ollist_t.  `nodes` is the chain from `first` on, `datas` the data of its nodes, `freed` the data
      that inserts have freed. */
  class List {
    var first: Node?
    ghost var nodes: seq<Node>
    ghost var datas: seq<Data>
    ghost var freed: set<Data>

    /** The k-th node, or NULL behind the last one. */
    static ghost function NodeAt(ns: seq<Node>, k: nat): Node? {
      if k < |ns| then ns[k] else null
    }

    static ghost predicate LinkedAt(ns: seq<Node>, k: nat)
      requires k < |ns|
      reads ns
    {
      ns[k].next == NodeAt(ns, k + 1)
    }

    ghost predicate Linked()
      reads this, nodes
    {
      first == NodeAt(nodes, 0) && forall k: nat :: k < |nodes| ==> LinkedAt(nodes, k)
    }

    /** Every node has data of its own, and none of it is freed. */
    ghost predicate Owned()
      reads this, nodes
    {
      Owns(nodes, datas) && Unique(datas) && forall d :: d in datas ==> d !in freed
    }

    static ghost predicate Owns(ns: seq<Node>, ds: seq<Data>)
      reads ns
    {
      |ds| == |ns| && forall k :: 0 <= k < |ns| ==> ns[k].data == ds[k]
    }

    static ghost predicate Unique(ds: seq<Data>) {
      forall i, j :: 0 <= i < j < |ds| ==> ds[i] != ds[j]
    }

    static ghost function EntriesOf(ns: seq<Node>, ds: seq<Data>): (es: seq<Entry>)
      requires |ds| == |ns|
      reads ns, ds
      ensures |es| == |ns|
      ensures forall k :: 0 <= k < |ns| ==> es[k] == Entry(ns[k].index, ds[k].rec)
    {
      seq(|ns|, k requires 0 <= k < |ns| reads ns, ds => Entry(ns[k].index, ds[k].rec))
    }

    ghost function Entries(): seq<Entry>
      requires Valid()
      reads this, nodes, datas
    {
      EntriesOf(nodes, datas)
    }

    /** Acyclic, in strictly increasing index order, and ending in NULL. */
    ghost predicate Valid()
      reads this, nodes
    {
      Linked() && Increasing(nodes) && Owned()
    }

    static ghost predicate Increasing(ns: seq<Node>)
      reads ns
    {
      forall i, j :: 0 <= i < j < |ns| ==> ns[i].index < ns[j].index
    }

    ghost function Model(): map<int, Rec>
      requires Valid()
      reads this, nodes, datas
    {
      ToMap(Entries())
    }

    /** The data under an index: one or none. */
    ghost function Under(index: int): set<Data>
      reads this, nodes
    {
      set k | 0 <= k < |nodes| && k < |datas| && nodes[k].index == index :: datas[k]
    }

    lemma UnderOne(p: nat, index: int)
      requires Valid() && Splits(p, index)
      ensures Under(index) == if p < |nodes| && nodes[p].index == index then {datas[p]} else {}
    {
      assert forall k :: p < k < |nodes| ==> nodes[p].index < nodes[k].index;
    }

    constructor ()
      ensures Valid() && Model() == map[]
      ensures nodes == [] && datas == [] && freed == {}
    {
      first := null;
      nodes, datas, freed := [], [], {};
    }

    /** The nodes before position p are smaller than `index`, the others are not. */
    ghost predicate Splits(p: nat, index: int)
      reads this, nodes
    {
      && p <= |nodes|
      && (forall k :: 0 <= k < p ==> nodes[k].index < index)
      && (p < |nodes| ==> index <= nodes[p].index)
    }

    /** Between positions p - 1 and p there is room for a node with this index. */
    static ghost predicate Gap(ns: seq<Node>, p: nat, index: int)
      reads ns
    {
      && p <= |ns|
      && (forall k :: 0 <= k < p ==> ns[k].index < index)
      && (p < |ns| ==> index < ns[p].index)
    }

    /** The traversal all operations share: stop at the first node that is not
        smaller than `index`.  `p` is its position. */
    method Seek(index: int) returns (prev: Node?, cur: Node?, ghost p: nat)
      requires Valid()
      ensures Splits(p, index) && cur == NodeAt(nodes, p) && prev == NodeAt(nodes, if p == 0 then 0 else p - 1)
    {
      cur, prev, p := first, first, 0;
      while cur != null && cur.index < index
        invariant p <= |nodes| && cur == NodeAt(nodes, p)
        invariant prev == NodeAt(nodes, if p == 0 then 0 else p - 1)
        invariant forall k :: 0 <= k < p ==> nodes[k].index < index
        decreases |nodes| - p
      {
        assert LinkedAt(nodes, p);
        prev, cur, p := cur, cur.next, p + 1;
      }
    }

    /** Which case Seek found, in terms of the map. */
    lemma SeekModel(p: nat, index: int)
      requires Valid() && Splits(p, index)
      ensures index in Model() <==> p < |nodes| && nodes[p].index == index
      ensures index in Model() ==> Model()[index] == datas[p].rec
    {
      assert Sorted(Entries());
      if p < |nodes| && nodes[p].index == index {
        ToMapLookup(Entries(), p);
      } else {
        ToMapMiss(Entries(), p, index);
      }
    }

    /** The node at position p gets another data pointer. */
    method SetData(cur: Node, data: Data, ghost p: nat)
      requires Valid() && p < |nodes| && cur == nodes[p]
      modifies cur
      ensures cur.index == old(cur.index) && Linked() && Increasing(nodes) && Owns(nodes, datas[p := data])
      ensures EntriesOf(nodes, datas[p := data]) == old(Entries())[p := Entry(cur.index, data.rec)]
    {
      Distinct(nodes, p);
      cur.data := data;
      forall k: nat | k < |nodes| ensures LinkedAt(nodes, k) {
        assert old(LinkedAt(nodes, k));
      }
    }

    static lemma UniqueUpdate(ds: seq<Data>, p: nat, data: Data, freed: set<Data>)
      requires Unique(ds) && p < |ds| && data !in ds
      requires data !in freed && forall d :: d in ds ==> d !in freed
      ensures Unique(ds[p := data]) && forall d :: d in ds[p := data] ==> d !in freed + {ds[p]}
    {
    }

    /** Gives the node at position p new data and frees the old. */
    method Replace(cur: Node, data: Data, ghost p: nat)
      requires Valid() && p < |nodes| && cur == nodes[p] && data !in datas && data !in freed
      modifies this, nodes
      ensures Valid() && nodes == old(nodes)
      ensures datas == old(datas)[p := data] && freed == old(freed) + {old(datas)[p]}
      ensures cur.index == old(cur.index) && Model() == old(Model())[cur.index := data.rec]
    {
      hide ToMap, LinkedAt, Increasing, EntriesOf, Unique;
      ghost var ds := datas;
      UniqueUpdate(ds, p, data, freed);
      OverwriteAt(nodes, ds, p, data.rec);
      SetData(cur, data, p);
      freed := freed + {ds[p]};
      datas := ds[p := data];
    }

    static lemma OverwriteAt(ns: seq<Node>, ds: seq<Data>, p: nat, r: Rec)
      requires p < |ns| == |ds| && Increasing(ns)
      ensures var es := EntriesOf(ns, ds); ToMap(es[p := Entry(ns[p].index, r)]) == ToMap(es)[ns[p].index := r]
    {
      ToMapOverwrite(EntriesOf(ns, ds), p, Entry(ns[p].index, r));
    }

    /** The pointer that leads to `node` now: the list's head or the previous node's. */
    method Splice(node: Node, prev: Node?, ghost p: nat)
      requires Valid() && p <= |nodes|
      requires node !in nodes && node.next == NodeAt(nodes, p) && prev == NodeAt(nodes, if p == 0 then 0 else p - 1)
      modifies this`first, nodes
      ensures Increasing(nodes) && Owned() && EntriesOf(nodes, datas) == old(Entries())
      ensures old(Gap(nodes, p, node.index)) ==> Gap(nodes, p, node.index)
      ensures forall k: nat :: k < |nodes| && k + 1 != p ==> LinkedAt(nodes, k)
      ensures if p == 0 then first == node else first == nodes[0] && nodes[p - 1].next == node
    {
      if p > 0 {
        Distinct(nodes, p - 1);
        Distinct(nodes, 0);
      }
      if node.next == first {
        first := node;
      } else {
        prev.next := node;
      }
      forall k: nat | k < |nodes| && k + 1 != p ensures LinkedAt(nodes, k) {
        assert old(LinkedAt(nodes, k));
      }
    }

    /** Links `node` in between prev and cur: at the head, in the middle or at the tail. */
    method Link(node: Node, prev: Node?, ghost p: nat)
      requires Valid() && Gap(nodes, p, node.index)
      requires node !in nodes && node.next == NodeAt(nodes, p) && prev == NodeAt(nodes, if p == 0 then 0 else p - 1)
      requires node.data !in datas && node.data !in freed
      modifies this, nodes
      ensures Valid() && freed == old(freed)
      ensures nodes == Inserted(old(nodes), p, node) && datas == Inserted(old(datas), p, node.data)
      ensures Model() == old(Model())[node.index := node.data.rec]
    {
      hide ToMap, Inserted, EntriesOf, Unique, LinkedAt, Increasing;
      ghost var ns, ds := nodes, datas;
      Splice(node, prev, p);
      nodes, datas := Inserted(ns, p, node), Inserted(ds, p, node.data);
      LinkedIn(ns, ds, node, p);
    }

    /** The list with the new node in it. */
    lemma LinkedIn(ns: seq<Node>, ds: seq<Data>, node: Node, p: nat)
      requires Gap(ns, p, node.index) && Increasing(ns) && Owns(ns, ds) && Unique(ds)
      requires nodes == Inserted(ns, p, node) && datas == Inserted(ds, p, node.data)
      requires forall k: nat :: k < |ns| && k + 1 != p ==> LinkedAt(ns, k)
      requires node.next == NodeAt(ns, p)
      requires if p == 0 then first == node else first == ns[0] && ns[p - 1].next == node
      requires node.data !in ds && node.data !in freed && forall d :: d in ds ==> d !in freed
      ensures Valid() && Model() == ToMap(EntriesOf(ns, ds))[node.index := node.data.rec]
    {
      hide ToMap, Inserted, EntriesOf;
      Relinked(ns, node, p);
      StillOwned(ns, ds, node, p);
      IncreasingInsert(ns, node, p);
      EntriesInsert(ns, ds, node, p);
      MapWithNode(ns, ds, node, p);
    }

    static lemma MapWithNode(ns: seq<Node>, ds: seq<Data>, node: Node, p: nat)
      requires |ds| == |ns| && Gap(ns, p, node.index)
      ensures var es := EntriesOf(ns, ds);
              ToMap(es[..p] + [Entry(node.index, node.data.rec)] + es[p..]) == ToMap(es)[node.index := node.data.rec]
    {
      ToMapInsert(EntriesOf(ns, ds), p, Entry(node.index, node.data.rec));
    }

    /** A new node for an index that is not there. */
    method Add(index: int, data: Data, prev: Node?, cur: Node?, ghost p: nat)
      requires Valid() && Gap(nodes, p, index)
      requires cur == NodeAt(nodes, p) && prev == NodeAt(nodes, if p == 0 then 0 else p - 1)
      requires data !in datas && data !in freed
      modifies this, nodes
      ensures Valid() && freed == old(freed)
      ensures forall n :: n in nodes ==> n in old(nodes) || fresh(n)
      ensures datas == Inserted(old(datas), p, data)
      ensures Model() == old(Model())[index := data.rec]
    {
      hide ToMap, EntriesOf, Owns, Unique, LinkedAt, Increasing;
      var node := new Node(index, data, cur);
      Link(node, prev, p);
    }

    static function Inserted<T>(s: seq<T>, p: nat, x: T): seq<T>
      requires p <= |s|
    {
      s[..p] + [x] + s[p..]
    }

    static lemma StillOwned(ns: seq<Node>, ds: seq<Data>, node: Node, p: nat)
      requires Owns(ns, ds) && Unique(ds) && node.data !in ds && p <= |ns|
      ensures Owns(Inserted(ns, p, node), Inserted(ds, p, node.data)) && Unique(Inserted(ds, p, node.data))
      ensures forall d :: d in Inserted(ds, p, node.data) ==> d in ds || d == node.data
    {
    }

    static lemma Distinct(ns: seq<Node>, p: nat)
      requires Increasing(ns) && p < |ns|
      ensures forall k :: 0 <= k < |ns| && k != p ==> ns[k] != ns[p]
    {
      assert forall k :: 0 <= k < |ns| && k != p ==> ns[k].index != ns[p].index;
    }

    static lemma IncreasingInsert(ns: seq<Node>, node: Node, p: nat)
      requires Gap(ns, p, node.index) && Increasing(ns)
      ensures Increasing(Inserted(ns, p, node))
    {
      var ms := Inserted(ns, p, node);
      forall i, j | 0 <= i < j < |ms| ensures ms[i].index < ms[j].index {
        assert i > p ==> ms[i] == ns[i - 1];
        assert j > p ==> ms[j] == ns[j - 1];
      }
    }

    static lemma EntriesInsert(ns: seq<Node>, ds: seq<Data>, node: Node, p: nat)
      requires p <= |ns| == |ds|
      ensures EntriesOf(Inserted(ns, p, node), Inserted(ds, p, node.data))
           == EntriesOf(ns, ds)[..p] + [Entry(node.index, node.data.rec)] + EntriesOf(ns, ds)[p..]
    {
    }

    lemma Relinked(ns: seq<Node>, node: Node, p: nat)
      requires p <= |ns| && nodes == Inserted(ns, p, node)
      requires forall k: nat :: k < |ns| && k + 1 != p ==> LinkedAt(ns, k)
      requires node.next == NodeAt(ns, p)
      requires if p == 0 then first == node else first == ns[0] && ns[p - 1].next == node
      ensures Linked()
    {
      forall k: nat | k < |nodes| ensures LinkedAt(nodes, k) {
        if k + 1 < p {
          assert LinkedAt(ns, k);
        } else if k > p {
          assert LinkedAt(ns, k - 1);
        }
      }
    }

    /** Puts new data under an index: in place of the old data, which is freed, or on a new node. */
    method Put(index: int, data: Data)
      requires Valid() && data !in datas && data !in freed
      modifies this, nodes
      ensures Valid() && Model() == old(Model())[index := data.rec]
      ensures index in old(Model()) ==> nodes == old(nodes)
      ensures forall n :: n in nodes ==> n in old(nodes) || fresh(n)
      ensures forall d :: d in datas ==> d in old(datas) || d == data
      ensures freed == old(freed) + old(Under(index))
    {
      hide ToMap, EntriesOf, Owns, Unique, LinkedAt, Increasing;
      var prev, cur, p := Seek(index);
      SeekModel(p, index);
      UnderOne(p, index);
      if cur != null && cur.index == index {
        Replace(cur, data, p);
      } else {
        Add(index, data, prev, cur, p);
      }
    }

    /** Insert copies the record and is map update.  An existing index keeps its node, and the data
        that was under it is freed, even when the caller's pointer leads there. */
    method Insert(index: int, otp: Data)
      requires Valid()
      modifies this, nodes
      ensures Valid() && Model() == old(Model())[index := otp.rec]
      ensures index in old(Model()) ==> nodes == old(nodes)
      ensures forall n :: n in nodes ==> n in old(nodes) || fresh(n)
      ensures forall d :: d in datas ==> d in old(datas) || fresh(d)
      ensures freed == old(freed) + old(Under(index))
    {
      hide ToMap, EntriesOf, Owns, Unique, LinkedAt, Increasing, Linked;
      var datap := new Data(otp.rec);
      Put(index, datap);
    }

    /** find_data: 0 and a pointer to the index's data, or -1 and NULL. */
    method Find(index: int) returns (status: int, otp: Data?)
      requires Valid()
      ensures status == if index in Model() then 0 else -1
      ensures otp != null <==> index in Model()
      ensures otp != null ==> Under(index) == {otp} && otp.rec == Model()[index]
    {
      var prev, cur, p := Seek(index);
      SeekModel(p, index);
      UnderOne(p, index);
      if cur != null && cur.index == index {
        status, otp := 0, cur.data;
      } else {
        status, otp := -1, null;
      }
    }

    /** A scan that stopped at position p found a record the map has, or all records miss. */
    lemma ScanModel(p: nat, input: int, port: int)
      requires Valid() && p <= |nodes|
      requires forall k :: 0 <= k < p ==> !Drives(datas[k].rec, input, port)
      requires p < |nodes| ==> Drives(datas[p].rec, input, port)
      ensures p < |nodes| ==> nodes[p].index in Model() && Model()[nodes[p].index] == datas[p].rec
      ensures p == |nodes| ==> forall k :: k in Model() ==> !Drives(Model()[k], input, port)
    {
      if p < |nodes| {
        SeekModel(p, nodes[p].index);
      } else {
        forall k | k in Model() ensures !Drives(Model()[k], input, port) {
          var i := ToMapEntry(Entries(), k);
        }
      }
    }

    /** find_data_op: scans every record for one that `input` drives on `port`.
        The pointer handed out leads to the last one looked at. */
    method FindOp(input: int, port: int) returns (status: int, otp: Data?)
      requires Valid()
      ensures status > -1 <==> exists k :: k in Model() && Drives(Model()[k], input, port)
      ensures status > -1 ==> status == port && otp != null && Drives(otp.rec, input, port)
      ensures status > -1 ==> exists k :: k in Model() && Model()[k] == otp.rec
    {
      status, otp := -1, null;
      var cur := first;
      ghost var p: nat := 0;
      while cur != null && status == -1
        invariant p <= |nodes| && cur == NodeAt(nodes, p)
        invariant forall k :: 0 <= k < p ==> !Drives(datas[k].rec, input, port)
        invariant status == -1
                  || (p < |nodes| && status == port && otp == datas[p] && Drives(otp.rec, input, port))
        invariant -1 <= status
        decreases |nodes| - p, status == -1
      {
        otp := cur.data;
        if Drives(cur.data.rec, input, port) {
          status := cur.data.rec.port;
        } else {
          assert LinkedAt(nodes, p);
          cur, p := cur.next, p + 1;
        }
      }
      ScanModel(p, input, port);
    }

    /** A caller writes a record through the pointer a search gave it: the list has changed, too. */
    method Write(index: int, otp: Data, r: Rec)
      requires Valid() && otp in Under(index)
      modifies otp
      ensures Valid() && otp.rec == r
      ensures Model() == old(Model())[index := r]
    {
      hide ToMap;
      ghost var p :| 0 <= p < |nodes| && nodes[p].index == index && datas[p] == otp;
      ghost var es := Entries();
      OverwriteAt(nodes, datas, p, r);
      otp.rec := r;
      assert Entries() == es[p := Entry(index, r)];
    }

    /** toggle_output: flips the record's state; the result means something only when the index exists. */
    method ToggleOutput(index: int) returns (onoff: Option<Uchar>)
      requires Valid()
      modifies datas
      ensures Valid()
      ensures index !in old(Model()) ==> onoff == None && Model() == old(Model())
      ensures index in old(Model()) ==>
                var r := old(Model())[index];
                onoff == Some(Toggle(r.onoff)) && Model() == old(Model())[index := r.(onoff := Toggle(r.onoff))]
    {
      var prev, cur, p := Seek(index);
      SeekModel(p, index);
      UnderOne(p, index);
      if cur != null && cur.index == index {
        Write(index, cur.data, cur.data.rec.(onoff := Toggle(cur.data.rec.onoff)));
        onoff := Some(cur.data.rec.onoff);
      } else {
        onoff := None;
      }
    }

    /** What the control and timer tasks do with every record they change: search it, write through the
        pointer, and insert it under the same index.  The insert frees what the pointer leads to. */
    method Update(index: int, r: Rec) returns (otp: Data)
      requires Valid() && index in Model()
      modifies this, nodes, datas
      ensures Valid() && Model() == old(Model())[index := r]
      ensures otp in freed && otp !in datas && otp.rec == r
      ensures nodes == old(nodes) && forall d :: d in datas ==> d in old(datas) || fresh(d)
    {
      hide ToMap, EntriesOf, Owns, Unique, LinkedAt, Increasing, Linked;
      var status, found := Find(index);
      otp := found;
      Write(index, otp, r);
      Insert(index, otp);
    }

    /** ON_ACC and OFF_ACC insert the record as it is and look at it through the pointer afterwards:
        at freed data. */
    method Reinsert(index: int) returns (otp: Data)
      requires Valid() && index in Model()
      modifies this, nodes
      ensures Valid() && Model() == old(Model())
      ensures otp in freed && otp !in datas && otp.rec == old(Model())[index]
    {
      hide ToMap, EntriesOf, Owns, Unique, LinkedAt, Increasing, Linked;
      var status, found := Find(index);
      otp := found;
      Insert(index, otp);
      SameValue(old(Model()), index);
    }

    static lemma SameValue(m: map<int, Rec>, index: int)
      requires index in m
      ensures m[index := m[index]] == m
    {
    }
  }
}
