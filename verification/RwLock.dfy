// The reader/writer lock of thread_io/queue/rdwr.c as a step protocol.

module RwLock {
  // Any number of threads run balanced programs of lock/unlock sections.  One
  // event executes one line of one C function, so threads interleave wherever the
  // C library allows it: the mutex is an explicit owner field, waiting on the
  // condition variable releases it, a woken thread has to take it again before it
  // re-tests its condition, a signal wakes at least one sleeper (the choice is an
  // input), a broadcast wakes all, and a sleeper may also wake spuriously.

  import opened Wrappers

  datatype Mode = Read | Write

  /** Where a thread stands.  The mode tells the rlock/runlock pair from wlock/wunlock. */
  datatype Pc =
    | Idle                      // between sections
    | Entering(mode: Mode)      // about to take the mutex in rlock/wlock
    | Testing(mode: Mode)       // owns the mutex, at the loop test
    | Asleep(mode: Mode)        // inside the condition wait
    | Woken(mode: Mode)         // woken, has to take the mutex again
    | Granting(mode: Mode)      // owns the mutex, at the counter increment
    | LeavingLock(mode: Mode)   // owns the mutex, about to return from rlock/wlock
    | Holding(mode: Mode)       // inside the protected section
    | Releasing(mode: Mode)     // about to take the mutex in runlock/wunlock
    | Checking(mode: Mode)      // owns the mutex, at the "is it held" test
    | Dropping(mode: Mode)      // owns the mutex, at the counter decrement
    | Notifying(mode: Mode)     // owns the mutex, at the signal or broadcast
    | LeavingUnlock(mode: Mode) // owns the mutex, about to return 0
    | Failing(mode: Mode)       // owns the mutex, about to return -1

  /** A thread and the sections it still has to run. */
  datatype Thread = Thread(pc: Pc, todo: seq<Mode>)

  datatype State = State(readers: int, writer: int, owner: Option<nat>, threads: seq<Thread>)

  datatype Event =
    | Run(i: nat, woken: set<nat>)   // thread i executes its next line; a signal wakes `woken`
    | Spurious(i: nat)               // sleeper i wakes by itself

  // ---------- the lines of the four functions ----------

  /** The loop tests at rdwr.c lines 27 and 55: must this thread wait? */
  predicate MustWait(s: State, mode: Mode) {
    match mode
    case Read => s.writer != 0
    case Write => s.writer != 0 || s.readers != 0
  }

  /** The tests at lines 38 and 66: is there nothing to release? */
  predicate NothingHeld(s: State, mode: Mode) {
    match mode
    case Read => s.readers == 0
    case Write => s.writer == 0
  }

  /** Does the line at 44-45 or 72 wake anybody?  A reader signals only when it was the last. */
  predicate Notifies(s: State, mode: Mode) {
    mode == Write || s.readers == 0
  }

  function Sleepers(ts: seq<Thread>): set<nat> {
    set i: nat | i < |ts| && ts[i].pc.Asleep?
  }

  function Wake(t: Thread): Thread {
    if t.pc.Asleep? then t.(pc := Woken(t.pc.mode)) else t
  }

  function WakeAll(ts: seq<Thread>, woken: set<nat>): (r: seq<Thread>)
    ensures |r| == |ts|
    ensures forall i :: 0 <= i < |ts| ==> r[i] == if i in woken then Wake(ts[i]) else ts[i]
  {
    seq(|ts|, i requires 0 <= i < |ts| => if i in woken then Wake(ts[i]) else ts[i])
  }

  /** May `woken` be the set a notification at this point wakes? */
  predicate LegalWake(s: State, mode: Mode, woken: set<nat>) {
    if !Notifies(s, mode) then woken == {}
    else if mode == Write then woken == Sleepers(s.threads)
    else woken <= Sleepers(s.threads) && (Sleepers(s.threads) != {} ==> woken != {})
  }

  predicate Enabled(s: State, e: Event) {
    e.i < |s.threads| &&
    var t := s.threads[e.i];
    match e
    case Spurious(_) => t.pc.Asleep?
    case Run(_, woken) =>
      match t.pc
      case Idle => t.todo != []
      case Entering(_) => s.owner.None?
      case Woken(_) => s.owner.None?
      case Releasing(_) => s.owner.None?
      case Asleep(_) => false
      case Notifying(mode) => LegalWake(s, mode, woken)
      case _ => true
  }

  function Goto(s: State, i: nat, pc: Pc): State
    requires i < |s.threads|
  {
    s.(threads := s.threads[i := s.threads[i].(pc := pc)])
  }

  function Next(s: State, e: Event): (r: State)
    requires Enabled(s, e)
    ensures |r.threads| == |s.threads|
  {
    var i := e.i;
    var t := s.threads[i];
    if e.Spurious? then s.(threads := s.threads[i := Wake(t)])
    else
      match t.pc
      case Idle => s.(threads := s.threads[i := Thread(Entering(t.todo[0]), t.todo[1..])])
      case Entering(m) => Goto(s, i, Testing(m)).(owner := Some(i))
      case Woken(m) => Goto(s, i, Testing(m)).(owner := Some(i))
      case Testing(m) =>
        if MustWait(s, m) then Goto(s, i, Asleep(m)).(owner := None) else Goto(s, i, Granting(m))
      case Granting(m) =>
        if m == Read then Goto(s, i, LeavingLock(m)).(readers := s.readers + 1)
        else Goto(s, i, LeavingLock(m)).(writer := s.writer + 1)
      case LeavingLock(m) => Goto(s, i, Holding(m)).(owner := None)
      case Holding(m) => Goto(s, i, Releasing(m))
      case Releasing(m) => Goto(s, i, Checking(m)).(owner := Some(i))
      case Checking(m) => if NothingHeld(s, m) then Goto(s, i, Failing(m)) else Goto(s, i, Dropping(m))
      case Dropping(m) =>
        if m == Read then Goto(s, i, Notifying(m)).(readers := s.readers - 1)
        else Goto(s, i, Notifying(m)).(writer := 0)
      case Notifying(m) => Goto(s.(threads := WakeAll(s.threads, e.woken)), i, LeavingUnlock(m))
      case LeavingUnlock(m) => Goto(s, i, Idle).(owner := None)
      case Failing(m) => Goto(s, i, Idle).(owner := None)
  }

  /** rdwr_init with every thread idle in front of its own program. */
  predicate Init(s: State) {
    && s.readers == 0 && s.writer == 0 && s.owner.None?
    && forall i :: 0 <= i < |s.threads| ==> s.threads[i].pc.Idle?
  }

  predicate Finished(s: State) {
    forall i :: 0 <= i < |s.threads| ==> s.threads[i] == Thread(Idle, [])
  }

  // ---------- sums over the threads ----------

  function Sum(ts: seq<Thread>, f: Thread -> nat): nat {
    if ts == [] then 0 else f(ts[0]) + Sum(ts[1..], f)
  }

  lemma {:induction false} SumUpdate(ts: seq<Thread>, i: nat, t: Thread, f: Thread -> nat)
    requires i < |ts|
    ensures Sum(ts[i := t], f) == Sum(ts, f) - f(ts[i]) + f(t)
    ensures f(ts[i]) <= Sum(ts, f)
  {
    if i == 0 {
      assert ts[0 := t][1..] == ts[1..];
    } else {
      SumUpdate(ts[1..], i - 1, t, f);
      assert ts[i := t][1..] == ts[1..][i - 1 := t];
    }
  }

  lemma {:induction false} SumBound(ts: seq<Thread>, us: seq<Thread>, f: Thread -> nat, d: nat)
    requires |ts| == |us| && forall i :: 0 <= i < |ts| ==> f(ts[i]) <= f(us[i]) <= f(ts[i]) + d
    ensures Sum(ts, f) <= Sum(us, f) <= Sum(ts, f) + d * |ts|
  {
    if ts != [] {
      SumBound(ts[1..], us[1..], f, d);
    }
  }

  lemma {:induction false} SumPositive(ts: seq<Thread>, f: Thread -> nat)
    ensures Sum(ts, f) > 0 <==> exists i :: 0 <= i < |ts| && f(ts[i]) > 0
  {
    if ts != [] {
      SumPositive(ts[1..], f);
      if j :| 0 <= j < |ts[1..]| && f(ts[1..][j]) > 0 {
        assert f(ts[j + 1]) > 0;
      }
      if j :| 0 <= j < |ts| && f(ts[j]) > 0 {
        assert j == 0 || f(ts[1..][j - 1]) > 0;
      }
    }
  }

  lemma {:induction false} SumAtMostOne(ts: seq<Thread>, f: Thread -> nat, i: nat, j: nat)
    requires i < j < |ts|
    ensures f(ts[i]) + f(ts[j]) <= Sum(ts, f)
  {
    if i == 0 {
      SumUpdate(ts[1..], j - 1, ts[j], f);
    } else {
      SumAtMostOne(ts[1..], f, i - 1, j - 1);
    }
  }

  // ---------- what every run keeps ----------

  /** Is the thread counted in the lock's counters in this mode? */
  predicate Counted(t: Thread, m: Mode) {
    t.pc == LeavingLock(m) || t.pc == Holding(m) || t.pc == Releasing(m) || t.pc == Checking(m) || t.pc == Dropping(m)
  }

  const READ_HOLDER: Thread -> nat := t => if Counted(t, Read) then 1 else 0
  const WRITE_HOLDER: Thread -> nat := t => if Counted(t, Write) then 1 else 0

  predicate OwnsMutex(pc: Pc) {
    pc.Testing? || pc.Granting? || pc.LeavingLock? || pc.Checking? || pc.Dropping?
    || pc.Notifying? || pc.LeavingUnlock? || pc.Failing?
  }

  /** The mutex is owned by the one thread that is at a line between lock and unlock. */
  predicate MutexInv(s: State) {
    && (s.owner.Some? ==> s.owner.value < |s.threads|)
    && forall i :: 0 <= i < |s.threads| ==> (OwnsMutex(s.threads[i].pc) <==> s.owner == Some(i))
  }

  /** The counters are exact, and readers exclude writers. */
  predicate CounterInv(s: State) {
    && s.readers == Sum(s.threads, READ_HOLDER)
    && s.writer == Sum(s.threads, WRITE_HOLDER)
    && s.writer <= 1
    && (s.writer == 0 || s.readers == 0)
  }

  /** What the mutex owner knows about the counters at each of its lines. */
  predicate OwnerKnows(s: State, t: Thread) {
    match t.pc
    case Granting(m) => !MustWait(s, m)
    case Notifying(m) => m == Write ==> s.writer == 0 && s.readers == 0
    case Failing(_) => false
    case _ => true
  }

  predicate OwnerInv(s: State) {
    forall i :: 0 <= i < |s.threads| ==> OwnerKnows(s, s.threads[i])
  }

  /** A thread that will look at the lock again without needing another wakeup. */
  predicate WillTest(pc: Pc) {
    pc.Entering? || pc.Woken? || pc.Testing? || pc.Granting?
  }

  predicate ReaderAsleep(s: State) {
    exists i :: 0 <= i < |s.threads| && s.threads[i].pc == Asleep(Read)
  }

  predicate SomeAsleep(s: State) {
    exists i :: 0 <= i < |s.threads| && s.threads[i].pc.Asleep?
  }

  predicate BroadcastPending(s: State) {
    exists i :: 0 <= i < |s.threads| && s.threads[i].pc == Notifying(Write)
  }

  predicate WakeupPending(s: State) {
    exists i :: 0 <= i < |s.threads| && (WillTest(s.threads[i].pc) || s.threads[i].pc.Notifying?)
  }

  /** No lost wakeup, in its two halves: without a writer no reader sleeps, and a
      free lock with a sleeper has somebody awake inside a lock call.  Between
      dropping the lock and notifying, the pending notification stands in for both. */
  predicate WakeInv(s: State) {
    && (s.writer == 0 && ReaderAsleep(s) ==> BroadcastPending(s))
    && (s.writer == 0 && s.readers == 0 && SomeAsleep(s) ==> WakeupPending(s))
  }

  predicate Inv(s: State) {
    MutexInv(s) && CounterInv(s) && OwnerInv(s) && WakeInv(s)
  }

  lemma MutexStep(s: State, e: Event)
    requires MutexInv(s) && Enabled(s, e)
    ensures MutexInv(Next(s, e))
  {
  }

  /** Waking threads changes no count. */
  lemma WakeKeepsCounts(ts: seq<Thread>, woken: set<nat>)
    ensures Sum(WakeAll(ts, woken), READ_HOLDER) == Sum(ts, READ_HOLDER)
    ensures Sum(WakeAll(ts, woken), WRITE_HOLDER) == Sum(ts, WRITE_HOLDER)
  {
    SumBound(ts, WakeAll(ts, woken), READ_HOLDER, 0);
    SumBound(ts, WakeAll(ts, woken), WRITE_HOLDER, 0);
  }

  /** An event changes each counter by exactly what it changes of thread i's claim. */
  lemma CountStep(s: State, e: Event)
    requires Enabled(s, e)
    ensures Sum(Next(s, e).threads, READ_HOLDER)
         == Sum(s.threads, READ_HOLDER) - READ_HOLDER(s.threads[e.i]) + READ_HOLDER(Next(s, e).threads[e.i])
    ensures Sum(Next(s, e).threads, WRITE_HOLDER)
         == Sum(s.threads, WRITE_HOLDER) - WRITE_HOLDER(s.threads[e.i]) + WRITE_HOLDER(Next(s, e).threads[e.i])
    ensures READ_HOLDER(s.threads[e.i]) <= Sum(s.threads, READ_HOLDER)
    ensures WRITE_HOLDER(s.threads[e.i]) <= Sum(s.threads, WRITE_HOLDER)
  {
    var r := Next(s, e);
    var ts := s.threads;
    SumUpdate(ts, e.i, ts[e.i], READ_HOLDER);
    SumUpdate(ts, e.i, ts[e.i], WRITE_HOLDER);
    if e.Run? && ts[e.i].pc.Notifying? {
      WakeKeepsCounts(ts, e.woken);
      ts := WakeAll(ts, e.woken);
    }
    assert r.threads == ts[e.i := r.threads[e.i]];
    SumUpdate(ts, e.i, r.threads[e.i], READ_HOLDER);
    SumUpdate(ts, e.i, r.threads[e.i], WRITE_HOLDER);
  }

  /** The counters follow thread i's claim, given what thread i knows. */
  lemma ClaimStep(s: State, e: Event)
    requires Enabled(s, e) && OwnerKnows(s, s.threads[e.i])
    requires READ_HOLDER(s.threads[e.i]) <= s.readers && WRITE_HOLDER(s.threads[e.i]) <= s.writer <= 1
    requires s.writer == 0 || s.readers == 0
    ensures Next(s, e).readers == s.readers - READ_HOLDER(s.threads[e.i]) + READ_HOLDER(Next(s, e).threads[e.i])
    ensures Next(s, e).writer == s.writer - WRITE_HOLDER(s.threads[e.i]) + WRITE_HOLDER(Next(s, e).threads[e.i]) <= 1
    ensures Next(s, e).writer == 0 || Next(s, e).readers == 0
  {
    var r := Next(s, e);
    match s.threads[e.i].pc {
      case Granting(_) =>
      case Dropping(_) =>
      case Notifying(m) => assert r.threads[e.i].pc == LeavingUnlock(m);
      case _ => assert r.readers == s.readers && r.writer == s.writer;
    }
  }

  lemma CounterStep(s: State, e: Event)
    requires CounterInv(s) && OwnerInv(s) && Enabled(s, e)
    ensures CounterInv(Next(s, e))
  {
    CountStep(s, e);
    ClaimStep(s, e);
  }

  /** What a thread knows stays true while it keeps the mutex; without it, it knows nothing. */
  lemma OthersKnow(s: State, e: Event, j: nat)
    requires MutexInv(s) && OwnerInv(s) && Enabled(s, e) && j < |s.threads| && j != e.i
    ensures OwnerKnows(Next(s, e), Next(s, e).threads[j])
  {
    assert OwnerKnows(s, s.threads[j]);
    assert OwnsMutex(s.threads[j].pc) ==> !OwnsMutex(s.threads[e.i].pc);
  }

  /** What thread i knows after its line follows from the test it made or the counter it changed. */
  lemma SelfKnows(s: State, e: Event)
    requires CounterInv(s) && OwnerInv(s) && Enabled(s, e)
    ensures OwnerKnows(Next(s, e), Next(s, e).threads[e.i])
  {
    SumUpdate(s.threads, e.i, s.threads[e.i], READ_HOLDER);
    SumUpdate(s.threads, e.i, s.threads[e.i], WRITE_HOLDER);
  }

  lemma OwnerStep(s: State, e: Event)
    requires Inv(s) && Enabled(s, e)
    ensures OwnerInv(Next(s, e))
  {
    var r := Next(s, e);
    SelfKnows(s, e);
    forall j: nat | j < |r.threads| ensures OwnerKnows(r, r.threads[j]) {
      if j != e.i {
        OthersKnow(s, e, j);
      }
    }
  }

  /** A thread falls asleep only while the lock is held against it. */
  lemma FallsAsleep(s: State, e: Event, j: nat)
    requires Enabled(s, e) && j < |s.threads| && Next(s, e).threads[j].pc.Asleep?
    ensures s.threads[j].pc == Next(s, e).threads[j].pc
         || (j == e.i && MustWait(Next(s, e), Next(s, e).threads[j].pc.mode))
  {
    if j == e.i {
      match s.threads[j].pc {
        case Testing(_) =>
        case _ =>
      }
    }
  }

  lemma ReaderWakeStep(s: State, e: Event)
    requires CounterInv(s) && OwnerInv(s) && WakeInv(s) && Enabled(s, e)
    requires Next(s, e).writer == 0 && ReaderAsleep(Next(s, e))
    ensures BroadcastPending(Next(s, e))
  {
    var r := Next(s, e);
    var j: nat :| j < |r.threads| && r.threads[j].pc == Asleep(Read);
    FallsAsleep(s, e, j);
    if s.writer != 0 {
      assert r.threads[e.i].pc == Notifying(Write);
    } else {
      assert ReaderAsleep(s) && s.threads[j].pc.Asleep?;
      var k: nat :| k < |s.threads| && s.threads[k].pc == Notifying(Write);
      BroadcastStays(s, e, j, k);
    }
  }

  /** As long as one sleeps, a broadcast that wakes all is still to come. */
  lemma BroadcastStays(s: State, e: Event, j: nat, k: nat)
    requires Enabled(s, e) && j < |s.threads| && k < |s.threads|
    requires s.threads[k].pc == Notifying(Write) && s.threads[j].pc.Asleep? && Next(s, e).threads[j].pc.Asleep?
    ensures Next(s, e).threads[k].pc == Notifying(Write)
  {
    assert j in Sleepers(s.threads);
  }

  /** The line that frees the lock is followed by a notification. */
  lemma FreedNotifies(s: State, e: Event)
    requires CounterInv(s) && Enabled(s, e) && OwnerKnows(s, s.threads[e.i])
    requires s.writer != 0 || s.readers != 0
    requires Next(s, e).writer == 0 == Next(s, e).readers
    ensures Next(s, e).threads[e.i].pc.Notifying?
  {
  }

  /** With the lock free, a pending wakeup stays pending until its notification is made. */
  lemma PendingStays(s: State, e: Event, k: nat)
    requires Enabled(s, e) && k < |s.threads| && (WillTest(s.threads[k].pc) || s.threads[k].pc.Notifying?)
    requires s.writer == 0 == s.readers && Next(s, e).writer == 0 == Next(s, e).readers
    requires k != e.i || !s.threads[k].pc.Notifying?
    ensures WillTest(Next(s, e).threads[k].pc) || Next(s, e).threads[k].pc.Notifying?
  {
  }

  /** A notification of a free lock with a sleeper wakes one. */
  lemma NotifyWakes(s: State, e: Event, j: nat)
    requires Enabled(s, e) && s.threads[e.i].pc.Notifying? && s.writer == 0 == s.readers
    requires j < |s.threads| && s.threads[j].pc.Asleep?
    ensures WakeupPending(Next(s, e))
  {
    assert j in Sleepers(s.threads);
    var w :| w in e.woken;
    assert w in Sleepers(s.threads);
    assert WillTest(Next(s, e).threads[w].pc);
  }

  lemma FreeWakeStep(s: State, e: Event)
    requires CounterInv(s) && OwnerInv(s) && WakeInv(s) && Enabled(s, e)
    requires Next(s, e).writer == 0 == Next(s, e).readers && SomeAsleep(Next(s, e))
    ensures WakeupPending(Next(s, e))
  {
    var r := Next(s, e);
    var j: nat :| j < |r.threads| && r.threads[j].pc.Asleep?;
    if s.writer != 0 || s.readers != 0 {
      FreedNotifies(s, e);
    } else {
      FallsAsleep(s, e, j);
      assert s.threads[j].pc.Asleep?;
      var k: nat :| k < |s.threads| && (WillTest(s.threads[k].pc) || s.threads[k].pc.Notifying?);
      if k == e.i && s.threads[k].pc.Notifying? {
        NotifyWakes(s, e, j);
      } else {
        PendingStays(s, e, k);
      }
    }
  }

  lemma InvInit(s: State)
    requires Init(s)
    ensures Inv(s)
  {
    SumPositive(s.threads, READ_HOLDER);
    SumPositive(s.threads, WRITE_HOLDER);
  }

  lemma InvStep(s: State, e: Event)
    requires Inv(s) && Enabled(s, e)
    ensures Inv(Next(s, e))
  {
    MutexStep(s, e);
    CounterStep(s, e);
    OwnerStep(s, e);
    var r := Next(s, e);
    if r.writer == 0 && ReaderAsleep(r) {
      ReaderWakeStep(s, e);
    }
    if r.writer == 0 && r.readers == 0 && SomeAsleep(r) {
      FreeWakeStep(s, e);
    }
  }

  // ---------- progress ----------

  /** Lines left in the current section and the sections after it; waiting counts once. */
  function Stage(pc: Pc): nat {
    match pc
    case Idle => 0
    case Entering(_) => 9
    case Testing(_) => 9
    case Asleep(_) => 9
    case Woken(_) => 9
    case Granting(_) => 8
    case LeavingLock(_) => 7
    case Holding(_) => 6
    case Releasing(_) => 5
    case Checking(_) => 4
    case Dropping(_) => 3
    case Notifying(_) => 2
    case LeavingUnlock(_) => 1
    case Failing(_) => 1
  }

  const REMAINING: Thread -> nat := (t: Thread) => Stage(t.pc) + 10 * |t.todo|

  /** Lines a thread can still run before it needs a wakeup or makes progress. */
  const AWAKE: Thread -> nat := (t: Thread) =>
    if t.pc.Entering? || t.pc.Woken? then 2 else if t.pc.Testing? then 1 else 0

  /** Lexicographic in (lines left to run, awake threads not yet re-tested), as one number. */
  function Measure(s: State): nat {
    Sum(s.threads, REMAINING) * (2 * |s.threads| + 1) + Sum(s.threads, AWAKE)
  }

  /** One line either brings the thread nearer the end of its sections, or uses
      up one of the lines it may run in between. */
  lemma LineProgress(s: State, e: Event)
    requires Enabled(s, e)
    ensures
      var t, u := s.threads[e.i], Next(s, e).threads[e.i];
      if e.Spurious? then REMAINING(u) == REMAINING(t) && AWAKE(u) == AWAKE(t) + 2
      else if t.pc.Testing? || t.pc.Entering? || t.pc.Woken? then
        REMAINING(u) <= REMAINING(t) && AWAKE(u) == AWAKE(t) - 1
      else REMAINING(u) < REMAINING(t) && AWAKE(u) <= AWAKE(t) + (if t.pc.Idle? then 2 else 0)
  {
    match s.threads[e.i].pc {
      case Testing(_) =>
      case Idle =>
      case Notifying(m) => assert Next(s, e).threads[e.i].pc == LeavingUnlock(m);
      case _ =>
    }
  }

  /** The threads after a notification's wakeups, if this line makes one. */
  function AfterWakeups(s: State, e: Event): (ts: seq<Thread>)
    requires Enabled(s, e)
    ensures |ts| == |s.threads|
  {
    if e.Run? && s.threads[e.i].pc.Notifying? then WakeAll(s.threads, e.woken) else s.threads
  }

  /** Besides the wakeups, a line changes its own thread only. */
  lemma OneThreadMoves(s: State, e: Event)
    requires Enabled(s, e)
    ensures var ts := AfterWakeups(s, e);
            ts[e.i] == s.threads[e.i] && Next(s, e).threads == ts[e.i := Next(s, e).threads[e.i]]
  {
  }

  lemma WakeSums(ts: seq<Thread>, woken: set<nat>)
    ensures Sum(WakeAll(ts, woken), REMAINING) == Sum(ts, REMAINING)
    ensures Sum(WakeAll(ts, woken), AWAKE) <= Sum(ts, AWAKE) + 2 * |ts|
  {
    WakeRemaining(ts, woken);
    WakeAwake(ts, woken);
  }

  lemma WakeRemaining(ts: seq<Thread>, woken: set<nat>)
    ensures Sum(WakeAll(ts, woken), REMAINING) == Sum(ts, REMAINING)
  {
    SumBound(ts, WakeAll(ts, woken), REMAINING, 0);
  }

  lemma WakeAwake(ts: seq<Thread>, woken: set<nat>)
    ensures Sum(WakeAll(ts, woken), AWAKE) <= Sum(ts, AWAKE) + 2 * |ts|
  {
    SumBound(ts, WakeAll(ts, woken), AWAKE, 2);
  }

  lemma SumsStep(s: State, e: Event)
    requires Enabled(s, e)
    ensures
      var t, r := s.threads[e.i], Next(s, e);
      && Sum(r.threads, REMAINING) == Sum(s.threads, REMAINING) - REMAINING(t) + REMAINING(r.threads[e.i])
      && Sum(r.threads, AWAKE) <= Sum(s.threads, AWAKE) - AWAKE(t) + AWAKE(r.threads[e.i])
           + (if t.pc.Notifying? then 2 * |s.threads| else 0)
      && (e.Spurious? ==> Sum(r.threads, AWAKE) == Sum(s.threads, AWAKE) - AWAKE(t) + AWAKE(r.threads[e.i]))
  {
    var u, ts := Next(s, e).threads[e.i], AfterWakeups(s, e);
    OneThreadMoves(s, e);
    if e.Run? && s.threads[e.i].pc.Notifying? {
      WakeSums(s.threads, e.woken);
    }
    SumUpdate(ts, e.i, u, REMAINING);
    SumUpdate(ts, e.i, u, AWAKE);
  }

  lemma MeasureStep(s: State, e: Event)
    requires Enabled(s, e)
    ensures e.Run? ==> Measure(Next(s, e)) < Measure(s)
    ensures e.Spurious? ==> Measure(Next(s, e)) == Measure(s) + 2
  {
    LineProgress(s, e);
    SumsStep(s, e);
    var n := |s.threads|;
    var a, b := Sum(s.threads, REMAINING), Sum(Next(s, e).threads, REMAINING);
    if a == b {
      assert a * (2 * n + 1) == b * (2 * n + 1);
    } else {
      Lexicographic(a, b, 2 * n + 1);
    }
  }

  lemma {:induction false} Lexicographic(a: nat, b: nat, w: nat)
    requires b < a
    ensures b * w + w <= a * w
    decreases a
  {
    assert a * w == (a - 1) * w + w;
    if b < a - 1 {
      Lexicographic(a - 1, b, w);
    }
  }

  /** No deadlock: as long as some thread has not finished, some thread can run a line. */
  lemma NoDeadlock(s: State) returns (e: Event)
    requires Inv(s) && !Finished(s)
    ensures e.Run? && Enabled(s, e)
  {
    var k :| 0 <= k < |s.threads| && s.threads[k] != Thread(Idle, []);
    if s.owner.Some? {
      e := Run(s.owner.value, {});
      var t := s.threads[s.owner.value];
      if t.pc.Notifying? {
        e := Run(s.owner.value, if Notifies(s, t.pc.mode) then Sleepers(s.threads) else {});
      }
    } else if !s.threads[k].pc.Asleep? {
      e := Run(k, {});
    } else if s.writer == 0 && s.readers == 0 {
      assert SomeAsleep(s);
      var j :| 0 <= j < |s.threads| && (WillTest(s.threads[j].pc) || s.threads[j].pc.Notifying?);
      e := Run(j, {});
    } else {
      var j := SomeHolder(s);
      e := Run(j, {});
    }
  }

  /** A lock that is held has a holder. */
  lemma SomeHolder(s: State) returns (j: nat)
    requires CounterInv(s) && (s.writer != 0 || s.readers != 0)
    ensures j < |s.threads| && (Counted(s.threads[j], Read) || Counted(s.threads[j], Write))
  {
    SumPositive(s.threads, READ_HOLDER);
    SumPositive(s.threads, WRITE_HOLDER);
    j :| j < |s.threads| && (READ_HOLDER(s.threads[j]) > 0 || WRITE_HOLDER(s.threads[j]) > 0);
  }

  // ---------- runs ----------

  predicate Trace(s: State, es: seq<Event>, r: State)
    decreases es
  {
    if es == [] then s == r
    else Enabled(s, es[0]) && Trace(Next(s, es[0]), es[1..], r)
  }

  function SpuriousWakeups(es: seq<Event>): nat {
    if es == [] then 0 else (if es[0].Spurious? then 1 else 0) + SpuriousWakeups(es[1..])
  }

  lemma {:induction false} InvTrace(s: State, es: seq<Event>, r: State)
    requires Inv(s) && Trace(s, es, r)
    ensures Inv(r)
    decreases es
  {
    if es != [] {
      InvStep(s, es[0]);
      InvTrace(Next(s, es[0]), es[1..], r);
    }
  }

  lemma {:induction false} MeasureTrace(s: State, es: seq<Event>, r: State)
    requires Trace(s, es, r)
    ensures |es| + Measure(r) <= Measure(s) + 3 * SpuriousWakeups(es)
    decreases es
  {
    if es != [] {
      MeasureStep(s, es[0]);
      MeasureTrace(Next(s, es[0]), es[1..], r);
    }
  }

  lemma HolderCounted(t: Thread)
    requires t.pc.Holding?
    ensures if t.pc.mode == Read then READ_HOLDER(t) == 1 else WRITE_HOLDER(t) == 1
  {
    assert Counted(t, t.pc.mode);
  }

  /** Of two holders none is a writer. */
  lemma HoldersExclude(r: State, i: nat, j: nat)
    requires Inv(r) && i < |r.threads| && j < |r.threads| && i != j
    requires r.threads[i].pc.Holding? && r.threads[j].pc.Holding?
    ensures r.threads[i].pc.mode == Read && r.threads[j].pc.mode == Read
  {
    SumPositive(r.threads, READ_HOLDER);
    if i < j {
      SumAtMostOne(r.threads, WRITE_HOLDER, i, j);
    } else {
      SumAtMostOne(r.threads, WRITE_HOLDER, j, i);
    }
    HolderCounted(r.threads[i]);
    HolderCounted(r.threads[j]);
  }

  /** Mutual exclusion in every reachable state: a thread that holds the lock to
      write holds it alone, and the counters count the holders. */
  lemma MutualExclusion(s: State, es: seq<Event>, r: State)
    requires Init(s) && Trace(s, es, r)
    ensures forall i, j :: 0 <= i < j < |r.threads| && r.threads[i].pc.Holding? && r.threads[j].pc.Holding?
              ==> r.threads[i].pc.mode == Read && r.threads[j].pc.mode == Read
    ensures r.readers == Sum(r.threads, READ_HOLDER) && r.writer == Sum(r.threads, WRITE_HOLDER) <= 1
    ensures r.readers == 0 || r.writer == 0
    ensures forall i :: 0 <= i < |r.threads| ==> !r.threads[i].pc.Failing?
  {
    InvInit(s);
    InvTrace(s, es, r);
    SumPositive(r.threads, READ_HOLDER);
    SumPositive(r.threads, WRITE_HOLDER);
    forall i | 0 <= i < |r.threads| ensures !r.threads[i].pc.Failing? {
      assert OwnerKnows(r, r.threads[i]);
    }
    forall i, j | 0 <= i < j < |r.threads| && r.threads[i].pc.Holding? && r.threads[j].pc.Holding?
      ensures r.threads[i].pc.mode == Read && r.threads[j].pc.mode == Read
    {
      HoldersExclude(r, i, j);
    }
  }

  /** No lost wakeup in every reachable state. */
  lemma NoLostWakeup(s: State, es: seq<Event>, r: State)
    requires Init(s) && Trace(s, es, r)
    ensures r.writer == 0 && ReaderAsleep(r) ==> BroadcastPending(r)
    ensures r.writer == 0 && r.readers == 0 && SomeAsleep(r) ==> WakeupPending(r)
  {
    InvInit(s);
    InvTrace(s, es, r);
  }

  /** Every workload completes: a run has at most Measure(s) lines plus three for
      each spurious wakeup, and a run that cannot be continued by a line of any
      thread has finished every section and left the lock free. */
  lemma EveryWorkloadCompletes(s: State, es: seq<Event>, r: State)
    requires Init(s) && Trace(s, es, r)
    ensures |es| <= Measure(s) + 3 * SpuriousWakeups(es)
    ensures (forall e :: Enabled(r, e) ==> e.Spurious?) <==> Finished(r)
    ensures Finished(r) ==> r.readers == 0 && r.writer == 0 && r.owner.None?
  {
    InvInit(s);
    InvTrace(s, es, r);
    MeasureTrace(s, es, r);
    if Finished(r) {
      FinishedIsFree(r);
    } else {
      var e := NoDeadlock(r);
      assert Enabled(r, e);
    }
  }

  /** Nobody is left to hold anything, and no line is left to run. */
  lemma FinishedIsFree(s: State)
    requires Inv(s) && Finished(s)
    ensures s.readers == 0 && s.writer == 0 && s.owner.None?
    ensures forall e :: !Enabled(s, e)
  {
    SumPositive(s.threads, READ_HOLDER);
    SumPositive(s.threads, WRITE_HOLDER);
  }

  // ---------- every section is run, and waits only where it must ----------

  /** Is the thread on its way into a section? */
  predicate Before(pc: Pc) {
    pc.Entering? || pc.Testing? || pc.Asleep? || pc.Woken? || pc.Granting? || pc.LeavingLock?
  }

  /** The sections the thread has not held yet. */
  function Owed(t: Thread): seq<Mode> {
    (if Before(t.pc) then [t.pc.mode] else []) + t.todo
  }

  /** The section that thread i begins to hold with this event. */
  function Begun(s: State, e: Event, i: nat): seq<Mode>
    requires Enabled(s, e) && i < |s.threads|
  {
    var t := Next(s, e).threads[i];
    if t.pc.Holding? && !s.threads[i].pc.Holding? then [t.pc.mode] else []
  }

  /** The sections that thread i holds in a run, in order. */
  function HeldBy(s: State, es: seq<Event>, r: State, i: nat): seq<Mode>
    requires Trace(s, es, r) && i < |s.threads|
    decreases es
  {
    if es == [] then [] else Begun(s, es[0], i) + HeldBy(Next(s, es[0]), es[1..], r, i)
  }

  lemma OwedStep(s: State, e: Event, i: nat)
    requires Enabled(s, e) && i < |s.threads|
    ensures Owed(s.threads[i]) == Begun(s, e, i) + Owed(Next(s, e).threads[i])
  {
    OneThreadMoves(s, e);
  }

  lemma Regroup(a: seq<Mode>, b: seq<Mode>, c: seq<Mode>)
    ensures a + (b + c) == (a + b) + c
  {
  }

  /** What a thread owes at the start of a run is what it holds in it and what it still owes. */
  lemma {:induction false} SectionsKept(s: State, es: seq<Event>, r: State, i: nat)
    requires Trace(s, es, r) && i < |s.threads|
    ensures |r.threads| == |s.threads| && Owed(s.threads[i]) == HeldBy(s, es, r, i) + Owed(r.threads[i])
    decreases es
  {
    hide Next, Owed, Begun, Enabled;
    if es == [] {
      assert [] + Owed(r.threads[i]) == Owed(r.threads[i]);
    } else {
      var t := Next(s, es[0]);
      OwedStep(s, es[0], i);
      SectionsKept(t, es[1..], r, i);
      Regroup(Begun(s, es[0], i), HeldBy(t, es[1..], r, i), Owed(r.threads[i]));
    }
  }

  /** Main result: in a run that finishes, every thread has held exactly the sections of its
      program, in their order. */
  lemma EverySectionHeld(s: State, es: seq<Event>, r: State, i: nat)
    requires Init(s) && Trace(s, es, r) && Finished(r) && i < |s.threads|
    ensures HeldBy(s, es, r, i) == s.threads[i].todo
  {
    SectionsKept(s, es, r, i);
    assert Owed(r.threads[i]) == [] && Owed(s.threads[i]) == s.threads[i].todo;
  }

  /** Does some thread hold the lock so that this mode has to wait? */
  predicate Conflict(ts: seq<Thread>, m: Mode) {
    exists j :: 0 <= j < |ts| && (Counted(ts[j], Write) || (m == Write && Counted(ts[j], Read)))
  }

  /** Main result: in every reachable state, the test of rlock or wlock puts the thread to sleep
      exactly when another one holds the lock in a conflicting mode; otherwise it goes on to take it. */
  lemma WaitsIffConflict(s: State, es: seq<Event>, r: State, i: nat)
    requires Init(s) && Trace(s, es, r) && i < |r.threads| && r.threads[i].pc.Testing?
    ensures
      var t := Next(r, Run(i, {})).threads[i];
      && (t.pc.Asleep? <==> Conflict(r.threads, r.threads[i].pc.mode))
      && (t.pc.Granting? <==> !Conflict(r.threads, r.threads[i].pc.mode))
      && t.pc.mode == r.threads[i].pc.mode
  {
    InvInit(s);
    InvTrace(s, es, r);
    HoldersCounted(r.threads);
  }

  lemma HoldersCounted(ts: seq<Thread>)
    ensures Sum(ts, WRITE_HOLDER) > 0 <==> exists j :: 0 <= j < |ts| && Counted(ts[j], Write)
    ensures Sum(ts, READ_HOLDER) > 0 <==> exists j :: 0 <= j < |ts| && Counted(ts[j], Read)
  {
    SumPositive(ts, WRITE_HOLDER);
    SumPositive(ts, READ_HOLDER);
    forall j | 0 <= j < |ts| ensures WRITE_HOLDER(ts[j]) > 0 <==> Counted(ts[j], Write) {
    }
    forall j | 0 <= j < |ts| ensures READ_HOLDER(ts[j]) > 0 <==> Counted(ts[j], Read) {
    }
  }

  // ---------- the lock structure itself ----------

  /** The fields of the lock, its mutex, and the threads using it.  Step runs one
      line of one C function by updating them in place. */
  class Lock {
    var readersReading: int
    var writerWriting: int
    var mutex: Option<nat>
    const threads: array<Thread>

    ghost function View(): State
      reads this, threads
    {
      State(readersReading, writerWriting, mutex, threads[..])
    }

    constructor (programs: seq<seq<Mode>>)
      ensures Init(View()) && fresh(threads)
      ensures threads.Length == |programs|
      ensures forall i :: 0 <= i < |programs| ==> threads[i].todo == programs[i]
    {
      readersReading, writerWriting, mutex := 0, 0, None;
      threads := new Thread[|programs|](i requires 0 <= i < |programs| => Thread(Idle, programs[i]));
    }

    method Goto(i: nat, pc: Pc)
      requires i < threads.Length
      modifies threads
      ensures threads[..] == old(threads[..])[i := old(threads[i]).(pc := pc)]
    {
      threads[i] := threads[i].(pc := pc);
    }

    /** The condition variable's signal or broadcast. */
    method Notify(woken: set<nat>)
      modifies threads
      ensures threads[..] == WakeAll(old(threads[..]), woken)
    {
      for j := 0 to threads.Length
        invariant forall k :: 0 <= k < j ==> threads[k] == WakeAll(old(threads[..]), woken)[k]
        invariant forall k :: j <= k < threads.Length ==> threads[k] == old(threads[k])
      {
        if j in woken {
          threads[j] := Wake(threads[j]);
        }
      }
    }

    method Step(i: nat, woken: set<nat>)
      requires Enabled(View(), Run(i, woken))
      modifies this, threads
      ensures View() == Next(old(View()), Run(i, woken))
    {
      var t := threads[i];
      match t.pc {
        case Idle =>
          threads[i] := Thread(Entering(t.todo[0]), t.todo[1..]);
        case Entering(m) =>
          mutex := Some(i);
          Goto(i, Testing(m));
        case Woken(m) =>
          mutex := Some(i);
          Goto(i, Testing(m));
        case Testing(m) =>
          if writerWriting != 0 || (m == Write && readersReading != 0) {
            mutex := None;
            Goto(i, Asleep(m));
          } else {
            Goto(i, Granting(m));
          }
        case Granting(Read) =>
          readersReading := readersReading + 1;
          Goto(i, LeavingLock(Read));
        case Granting(Write) =>
          writerWriting := writerWriting + 1;
          Goto(i, LeavingLock(Write));
        case LeavingLock(m) =>
          mutex := None;
          Goto(i, Holding(m));
        case Holding(m) =>
          Goto(i, Releasing(m));
        case Releasing(m) =>
          mutex := Some(i);
          Goto(i, Checking(m));
        case Checking(m) =>
          var nothing := if m == Read then readersReading == 0 else writerWriting == 0;
          Goto(i, if nothing then Failing(m) else Dropping(m));
        case Dropping(Read) =>
          readersReading := readersReading - 1;
          Goto(i, Notifying(Read));
        case Dropping(Write) =>
          writerWriting := 0;
          Goto(i, Notifying(Write));
        case Notifying(m) =>
          if m == Write || readersReading == 0 {
            Notify(woken);
          }
          Goto(i, LeavingUnlock(m));
        case LeavingUnlock(_) =>
          mutex := None;
          Goto(i, Idle);
        case Failing(_) =>
          mutex := None;
          Goto(i, Idle);
        case Asleep(_) =>
          assert false;
      }
    }

    method WakeSpuriously(i: nat)
      requires Enabled(View(), Spurious(i))
      modifies threads
      ensures View() == Next(old(View()), Spurious(i))
    {
      threads[i] := Wake(threads[i]);
    }
  }
}
