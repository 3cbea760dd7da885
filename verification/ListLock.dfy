// The list operations under the reader/writer lock (thread_io/queue/ollist_threads_rw.c): each takes
// the lock before it touches the list and releases it afterwards.

module ListLock {
  import opened Records
  import L = RwLock

  datatype Op = Insert | Find | FindOp | ToggleOutput

  /** Which lock the operation takes. */
  function ModeOf(op: Op): L.Mode {
    match op
    case Insert => L.Write
    case Find => L.Read
    case FindOp => L.Read
    case ToggleOutput => L.Write
  }

  predicate IsSearch(op: Op) {
    op.Find? || op.FindOp?
  }

  function Modes(ops: seq<Op>): (ms: seq<L.Mode>)
    ensures |ms| == |ops| && forall k :: 0 <= k < |ops| ==> ms[k] == ModeOf(ops[k])
  {
    seq(|ops|, k requires 0 <= k < |ops| => ModeOf(ops[k]))
  }

  /** The lock with its threads, and the list they share. */
  datatype State = State(lock: L.State, list: map<int, Rec>)

  datatype Event =
    | Line(e: L.Event)                          // a line of the lock's functions
    | Access(i: nat, list: map<int, Rec>)       // thread i, in an operation, reads or changes the list

  predicate Enabled(s: State, e: Event) {
    match e
    case Line(l) => L.Enabled(s.lock, l)
    case Access(i, list) =>
      && i < |s.lock.threads| && s.lock.threads[i].pc.Holding?
      && (s.lock.threads[i].pc.mode == L.Read ==> list == s.list)
  }

  function Next(s: State, e: Event): State
    requires Enabled(s, e)
  {
    match e
    case Line(l) => s.(lock := L.Next(s.lock, l))
    case Access(_, list) => s.(list := list)
  }

  predicate Trace(s: State, es: seq<Event>, r: State)
    decreases es
  {
    if es == [] then s == r
    else Enabled(s, es[0]) && Trace(Next(s, es[0]), es[1..], r)
  }

  // ---------- which operation a thread is in ----------

  /** Thread t runs the operations `ops`: what is left of its program are their modes, and outside of
      Idle it is in the operation before those. */
  predicate Runs(t: L.Thread, ops: seq<Op>) {
    && |t.todo| <= |ops| && t.todo == Modes(ops)[|ops| - |t.todo|..]
    && (!t.pc.Idle? ==> |t.todo| < |ops| && t.pc.mode == ModeOf(Current(t, ops)))
  }

  function Current(t: L.Thread, ops: seq<Op>): Op
    requires |t.todo| < |ops|
  {
    ops[|ops| - |t.todo| - 1]
  }

  predicate AllRun(ts: seq<L.Thread>, ops: seq<seq<Op>>) {
    |ts| == |ops| && forall i :: 0 <= i < |ts| ==> Runs(ts[i], ops[i])
  }

  predicate Init(s: State, ops: seq<seq<Op>>) {
    L.Init(s.lock) && AllRun(s.lock.threads, ops)
  }

  /** One line, seen from one thread: it stays in its operation or leaves it, or begins the next one. */
  predicate Moves(t: L.Thread, u: L.Thread) {
    || (u.todo == t.todo && (!u.pc.Idle? ==> !t.pc.Idle? && u.pc.mode == t.pc.mode))
    || (t.pc.Idle? && t.todo != [] && u == L.Thread(L.Entering(t.todo[0]), t.todo[1..]))
  }

  lemma ThreadMoves(s: L.State, e: L.Event, i: nat)
    requires L.Enabled(s, e) && i < |s.threads|
    ensures Moves(s.threads[i], L.Next(s, e).threads[i])
  {
  }

  lemma RunsOn(t: L.Thread, u: L.Thread, ops: seq<Op>)
    requires Runs(t, ops) && Moves(t, u)
    ensures Runs(u, ops)
  {
    var k := |ops| - |t.todo|;
    if u.todo != t.todo {
      assert t.todo[0] == Modes(ops)[k];
      assert t.todo[1..] == Modes(ops)[k + 1..];
    }
  }

  lemma RunsNext(s: L.State, e: L.Event, ops: seq<seq<Op>>, i: nat)
    requires L.Enabled(s, e) && AllRun(s.threads, ops) && i < |ops|
    ensures Runs(L.Next(s, e).threads[i], ops[i])
  {
    ThreadMoves(s, e, i);
    RunsOn(s.threads[i], L.Next(s, e).threads[i], ops[i]);
  }

  predicate Inv(s: State, ops: seq<seq<Op>>) {
    L.Inv(s.lock) && AllRun(s.lock.threads, ops)
  }

  lemma InvNext(s: State, e: Event, ops: seq<seq<Op>>)
    requires Inv(s, ops) && Enabled(s, e)
    ensures Inv(Next(s, e), ops)
  {
    if e.Line? {
      L.InvStep(s.lock, e.e);
      forall i: nat | i < |ops| ensures Runs(Next(s, e).lock.threads[i], ops[i]) {
        RunsNext(s.lock, e.e, ops, i);
      }
    }
  }

  lemma {:induction false} InvTrace(s: State, es: seq<Event>, r: State, ops: seq<seq<Op>>)
    requires Inv(s, ops) && Trace(s, es, r)
    ensures Inv(r, ops)
    decreases es
  {
    if es != [] {
      InvNext(s, es[0], ops);
      InvTrace(Next(s, es[0]), es[1..], r, ops);
    }
  }

  /** Main result: in every run, two list operations that hold the lock at the same time are searches. */
  lemma OnlySearchesOverlap(s: State, es: seq<Event>, r: State, ops: seq<seq<Op>>, i: nat, j: nat)
    requires Init(s, ops) && Trace(s, es, r) && i < |ops| && j < |ops| && i != j
    ensures |r.lock.threads| == |ops|
    ensures
      var t, u := r.lock.threads[i], r.lock.threads[j];
      t.pc.Holding? && u.pc.Holding? ==>
        && |t.todo| < |ops[i]| && IsSearch(Current(t, ops[i]))
        && |u.todo| < |ops[j]| && IsSearch(Current(u, ops[j]))
  {
    L.InvInit(s.lock);
    InvTrace(s, es, r, ops);
    var t, u := r.lock.threads[i], r.lock.threads[j];
    assert Runs(t, ops[i]) && Runs(u, ops[j]);
    if t.pc.Holding? && u.pc.Holding? {
      L.HoldersExclude(r.lock, i, j);
    }
  }

  // ---------- each operation sees one list ----------

  /** Thread i stays inside its operation throughout. */
  predicate Stays(s: State, es: seq<Event>, i: nat)
    decreases es
  {
    && i < |s.lock.threads| && s.lock.threads[i].pc.Holding?
    && (es != [] ==> Enabled(s, es[0]) && Stays(Next(s, es[0]), es[1..], i))
  }

  /** Does the run contain an access of another thread? */
  predicate OthersAccess(es: seq<Event>, i: nat) {
    exists k :: 0 <= k < |es| && es[k].Access? && es[k].i != i
  }

  lemma OneAccess(s: State, e: Event, i: nat, ops: seq<seq<Op>>)
    requires Inv(s, ops) && Enabled(s, e) && i < |s.lock.threads| && s.lock.threads[i].pc.Holding?
    ensures s.lock.threads[i].pc.mode == L.Read ==> Next(s, e).list == s.list
    ensures s.lock.threads[i].pc.mode == L.Write ==> !(e.Access? && e.i != i)
  {
    if e.Access? && e.i != i {
      L.HoldersExclude(s.lock, i, e.i);
    }
  }

  lemma SameMode(s: State, e: Event, i: nat)
    requires Enabled(s, e) && i < |s.lock.threads| && s.lock.threads[i].pc.Holding?
    requires Next(s, e).lock.threads[i].pc.Holding?
    ensures Next(s, e).lock.threads[i].pc.mode == s.lock.threads[i].pc.mode
  {
  }

  /** Main result: while an operation holds the lock, the list stays as it is for a search, and only
      this operation touches it for an insert or a toggle.  So each may be read as one atomic step. */
  lemma {:induction false} SeesOneList(s: State, es: seq<Event>, r: State, i: nat, ops: seq<seq<Op>>)
    requires Inv(s, ops) && Trace(s, es, r) && Stays(s, es, i)
    ensures s.lock.threads[i].pc.mode == L.Read ==> r.list == s.list
    ensures s.lock.threads[i].pc.mode == L.Write ==> !OthersAccess(es, i)
    decreases es
  {
    if es != [] {
      OneAccess(s, es[0], i, ops);
      SameMode(s, es[0], i);
      InvNext(s, es[0], ops);
      SeesOneList(Next(s, es[0]), es[1..], r, i, ops);
      assert forall k :: 1 <= k < |es| ==> es[k] == es[1..][k - 1];
    }
  }
}
