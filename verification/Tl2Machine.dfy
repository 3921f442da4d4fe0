/** Transactional Locking II, lazy build with the GV4 clock, as a machine that takes one shared
    memory access at a time.  Any number of threads run transactions over one memory and one
    table of versioned locks; a step is a single load, store or compare-and-swap of a shared
    word by some thread, together with the thread-local work up to the next one.

    `done`, `start`, `ops` and `seen` record the history of the run: no step reads them. */
module Tl2Machine {
  import opened Options
  import opened Tl2Log

  type Stripe = nat
  type Tid = nat

  const TABSZ: nat := 1048576
  /** How often the acquisition of a write-only stripe is retried before the transaction aborts. */
  const SPIN_BUDGET: nat := 1000

  /** The lock that covers an address. */
  function PsLock(a: Addr): (k: Stripe)
    ensures k < TABSZ
  {
    ((a + 128) / 8) % TABSZ
  }

  /** A lock word: a version, or the write-set entry (and so the thread) that holds the lock. */
  datatype LockWord = Version(n: nat) | Locked(owner: Tid, entry: nat)

  datatype Op = Load(addr: Addr, val: Val) | Store(addr: Addr, val: Val)

  datatype Outcome =
    | Committed(wv: nat, writes: seq<Pair>)
    | ReadOnly
    | Aborted

  /** A finished transaction: its read version, how many transactions had finished when it
      started, the operations it performed, what it read from memory, and how it ended. */
  datatype TxRecord = TxRecord(rv: nat, start: nat, ops: seq<Op>, seen: map<Addr, Val>, outcome: Outcome)

  /** Where a thread is.  The names follow the code: a load reads the lock word, then the
      value, then the lock word again; a commit acquires the locks of its write-set entry by
      entry, reads and bumps the clock, validates its read-set entry by entry, writes back
      entry by entry and releases entry by entry. */
  datatype Pc =
    | Idle
    | Active
    | LoadLock(a: Addr)
    | LoadValue(a: Addr, rdv: nat)
    | LoadRecheck(a: Addr, rdv: nat, v: Val)
    | StoreLock(a: Addr, x: Val)
    | StoreValue(a: Addr, x: Val, cv: LockWord)
    | StoreRecheck(a: Addr, x: Val, rdv: nat)
    | Acquire(i: nat)
    | AcquireRw(i: nat, rdv: nat)
    | AcquireW(i: nat, spins: nat)
    | AcquireWCas(i: nat, spins: nat, rdv: nat)
    | ReadClock
    | CasClock(gv: nat)
    | Validate(wv: nat, i: nat, ok: bool)
    | WriteBack(wv: nat, i: nat)
    | Release(wv: nat, i: nat)
    | Aborting(i: nat)

  /** `held` is the `Held` flag and the `rdv` field of the write-set entries: it maps the index
      of an entry that holds its lock to the version the lock had when it was taken. */
  datatype Thread = Thread(
    pc: Pc,
    isRO: bool,
    rv: nat,
    rdSet: seq<Stripe>,
    wrSet: WriteSet,
    held: map<nat, nat>,
    holdsLocks: bool,
    start: nat,
    ops: seq<Op>,
    seen: map<Addr, Val>)

  datatype State = State(
    clock: nat,
    locks: seq<LockWord>,
    mem: Memory,
    threads: seq<Thread>,
    mem0: Memory,
    done: seq<TxRecord>)

  predicate Init(s: State) {
    && s.clock == 0
    && |s.locks| == TABSZ
    && (forall k :: 0 <= k < |s.locks| ==> s.locks[k] == Version(0))
    && (forall t :: 0 <= t < |s.threads| ==> s.threads[t] == Fresh(Idle, false, 0, 0))
    && s.mem == s.mem0
    && s.done == []
  }

  function Fresh(pc: Pc, isRO: bool, rv: nat, start: nat): Thread {
    Thread(pc, isRO, rv, [], EmptyWriteSet, map[], false, start, [], map[])
  }

  /** Thread `t` moves on without touching shared memory. */
  function Local(s: State, t: Tid, T: Thread): State
    requires t < |s.threads|
  {
    s.(threads := s.threads[t := T])
  }

  function Goto(s: State, t: Tid, pc: Pc): State
    requires t < |s.threads|
  {
    Local(s, t, s.threads[t].(pc := pc))
  }

  /** The transaction of thread `t` ends with `outcome` and the thread goes to `pc`. */
  function Finish(s: State, t: Tid, outcome: Outcome, pc: Pc): State
    requires t < |s.threads|
  {
    var T := s.threads[t];
    Goto(s, t, pc).(done := s.done + [TxRecord(T.rv, T.start, T.ops, T.seen, outcome)])
  }

  function LockOf(T: Thread, i: nat): Stripe
    requires i < |T.wrSet.entries|
  {
    PsLock(T.wrSet.entries[i].addr)
  }

  // ---- The steps of a thread: its transaction's body ----

  predicate Begin(s: State, s': State, t: Tid)
    requires t < |s.threads|
  {
    && s.threads[t].pc == Idle
    && (s' == Local(s, t, Fresh(Active, false, s.clock, |s.done|)) ||
        s' == Local(s, t, Fresh(Active, true, s.clock, |s.done|)))
  }

  /** `TxLoad` is called: the write-set is consulted first. */
  predicate LoadBegin(s: State, s': State, t: Tid, a: Addr)
    requires t < |s.threads|
  {
    var T := s.threads[t];
    && T.pc == Active
    && match Lookup(T.wrSet, a)
       case Some(v) => s' == Local(s, t, T.(ops := T.ops + [Load(a, v)]))
       case None => s' == Goto(s, t, LoadLock(a))
  }

  predicate LoadFirst(s: State, s': State, t: Tid)
    requires t < |s.threads| && |s.locks| == TABSZ
  {
    && s.threads[t].pc.LoadLock?
    && var a := s.threads[t].pc.a;
       match s.locks[PsLock(a)]
       case Version(n) => s' == Goto(s, t, LoadValue(a, n))
       case Locked(_, _) => s' == Goto(s, t, Aborting(0))
  }

  predicate LoadMemory(s: State, s': State, t: Tid)
    requires t < |s.threads|
  {
    && s.threads[t].pc.LoadValue?
    && var pc := s.threads[t].pc;
       s' == Goto(s, t, LoadRecheck(pc.a, pc.rdv, Get(s.mem, pc.a)))
  }

  /** What is left of thread `t` when it has read `v` from address `a` and logged `op`. */
  function Tracked(T: Thread, a: Addr, v: Val, op: Op): Thread {
    T.(pc := Active,
       rdSet := if T.isRO then T.rdSet else T.rdSet + [PsLock(a)],
       seen := T.seen[a := v],
       ops := T.ops + [op])
  }

  /** The lock word of a stripe that thread `t` has read: old enough, or taken by the thread itself. */
  predicate Coherent(word: LockWord, t: Tid, rv: nat) {
    match word
    case Version(n) => n <= rv
    case Locked(o, _) => o == t
  }

  /** Some stripe of the read-set has been taken or changed by another thread. */
  predicate Overtaken(locks: seq<LockWord>, t: Tid, T: Thread) {
    exists k :: k in T.rdSet && k < |locks| && !Coherent(locks[k], t, T.rv)
  }

  /** The second look at the lock word.  When the read-set is out of room `TrackLoad` revalidates
      it and aborts instead if it has been overtaken. */
  predicate LoadSecond(s: State, s': State, t: Tid)
    requires t < |s.threads| && |s.locks| == TABSZ
  {
    var T := s.threads[t];
    && T.pc.LoadRecheck?
    && var LoadRecheck(a, rdv, v) := T.pc;
       if rdv <= T.rv && s.locks[PsLock(a)] == Version(rdv) then
         || s' == Local(s, t, Tracked(T, a, v, Load(a, v)))
         || (!T.isRO && Overtaken(s.locks, t, T) && s' == Goto(s, t, Aborting(0)))
       else
         s' == Goto(s, t, Aborting(0))
  }

  /** `TxStore` is called: in a read-only transaction it aborts. */
  predicate StoreBegin(s: State, s': State, t: Tid, a: Addr, x: Val)
    requires t < |s.threads|
  {
    && s.threads[t].pc == Active
    && s' == Goto(s, t, if s.threads[t].isRO then Aborting(0) else StoreLock(a, x))
  }

  predicate StoreFirst(s: State, s': State, t: Tid)
    requires t < |s.threads| && |s.locks| == TABSZ
  {
    && s.threads[t].pc.StoreLock?
    && var StoreLock(a, x) := s.threads[t].pc;
       s' == Goto(s, t, StoreValue(a, x, s.locks[PsLock(a)]))
  }

  function Recorded(T: Thread, a: Addr, x: Val): Thread {
    T.(pc := Active, wrSet := Record(T.wrSet, a, x), ops := T.ops + [Store(a, x)])
  }

  function Replaced(T: Thread, a: Addr, x: Val): Thread {
    T.(pc := Active,
       wrSet := T.wrSet.(entries := Replace(T.wrSet.entries, a, x)),
       ops := T.ops + [Store(a, x)])
  }

  /** The location is compared with the value to store.  An idempotent store updates the entry the
      write-set has for the address, or else is on its way to becoming a tracked load. */
  predicate StoreMemory(s: State, s': State, t: Tid)
    requires t < |s.threads|
  {
    var T := s.threads[t];
    && T.pc.StoreValue?
    && var StoreValue(a, x, cv) := T.pc;
       if Get(s.mem, a) == x && LastStore(T.wrSet.entries, a).Some? then
         s' == Local(s, t, Replaced(T, a, x))
       else if Get(s.mem, a) == x && cv.Version? && cv.n <= T.rv then
         s' == Goto(s, t, StoreRecheck(a, x, cv.n))
       else
         s' == Local(s, t, Recorded(T, a, x))
  }

  predicate StoreSecond(s: State, s': State, t: Tid)
    requires t < |s.threads| && |s.locks| == TABSZ
  {
    var T := s.threads[t];
    && T.pc.StoreRecheck?
    && var StoreRecheck(a, x, rdv) := T.pc;
       if s.locks[PsLock(a)] == Version(rdv) then
         || s' == Local(s, t, Tracked(T, a, x, Store(a, x)))
         || (Overtaken(s.locks, t, T) && s' == Goto(s, t, Aborting(0)))
       else
         s' == Local(s, t, Recorded(T, a, x))
  }

  /** The program itself gives the transaction up. */
  predicate Restart(s: State, s': State, t: Tid)
    requires t < |s.threads|
  {
    && s.threads[t].pc == Active
    && s' == Goto(s, t, Aborting(0))
  }

  // ---- The steps of a thread: commit and abort ----

  predicate CommitBegin(s: State, s': State, t: Tid)
    requires t < |s.threads|
  {
    var T := s.threads[t];
    && T.pc == Active
    && s' == if |T.wrSet.entries| == 0 then Finish(s, t, ReadOnly, Idle)
             else Local(s, t, T.(pc := Acquire(0), holdsLocks := true))
  }

  /** The lock word of the next write-set entry is read. */
  predicate AcquireLook(s: State, s': State, t: Tid)
    requires t < |s.threads| && |s.locks| == TABSZ
  {
    var T := s.threads[t];
    && T.pc.Acquire?
    && var i := T.pc.i;
       if i >= |T.wrSet.entries| then s' == Goto(s, t, ReadClock)
       else
         var k := LockOf(T, i);
         var cv := s.locks[k];
         if cv.Locked? && cv.owner == t then
           s' == Goto(s, t, if k in T.rdSet && cv.entry in T.held && T.held[cv.entry] > T.rv
                            then Aborting(0) else Acquire(i + 1))
         else if k in T.rdSet then
           s' == Goto(s, t, if cv.Version? && cv.n <= T.rv then AcquireRw(i, cv.n) else Aborting(0))
         else
           s' == Goto(s, t, AcquireW(i, SPIN_BUDGET))
  }

  /** Entry `i` of thread `t` takes its lock, whose version was `rdv`. */
  function Take(s: State, t: Tid, i: nat, rdv: nat): State
    requires t < |s.threads| && |s.locks| == TABSZ && i < |s.threads[t].wrSet.entries|
  {
    var T := s.threads[t];
    Local(s, t, T.(pc := Acquire(i + 1), held := T.held[i := rdv]))
    .(locks := s.locks[LockOf(T, i) := Locked(t, i)])
  }

  predicate AcquireRwCas(s: State, s': State, t: Tid)
    requires t < |s.threads| && |s.locks| == TABSZ
  {
    var T := s.threads[t];
    && T.pc.AcquireRw?
    && T.pc.i < |T.wrSet.entries|
    && s' == if s.locks[LockOf(T, T.pc.i)] == Version(T.pc.rdv) then Take(s, t, T.pc.i, T.pc.rdv)
             else Goto(s, t, Aborting(0))
  }

  function SpinOrAbort(s: State, t: Tid, i: nat, spins: nat): State
    requires t < |s.threads|
  {
    Goto(s, t, if spins == 0 then Aborting(0) else AcquireW(i, spins - 1))
  }

  predicate AcquireWLook(s: State, s': State, t: Tid)
    requires t < |s.threads| && |s.locks| == TABSZ
  {
    var T := s.threads[t];
    && T.pc.AcquireW?
    && T.pc.i < |T.wrSet.entries|
    && s' == match s.locks[LockOf(T, T.pc.i)]
             case Version(n) => Goto(s, t, AcquireWCas(T.pc.i, T.pc.spins, n))
             case Locked(_, _) => SpinOrAbort(s, t, T.pc.i, T.pc.spins)
  }

  predicate AcquireWTake(s: State, s': State, t: Tid)
    requires t < |s.threads| && |s.locks| == TABSZ
  {
    var T := s.threads[t];
    && T.pc.AcquireWCas?
    && T.pc.i < |T.wrSet.entries|
    && s' == if s.locks[LockOf(T, T.pc.i)] == Version(T.pc.rdv) then Take(s, t, T.pc.i, T.pc.rdv)
             else SpinOrAbort(s, t, T.pc.i, T.pc.spins)
  }

  predicate ClockLook(s: State, s': State, t: Tid)
    requires t < |s.threads|
  {
    && s.threads[t].pc == ReadClock
    && s' == Goto(s, t, CasClock(s.clock))
  }

  /** GV4: a thread whose swap fails borrows the version of the thread that got in between. */
  predicate ClockCas(s: State, s': State, t: Tid)
    requires t < |s.threads|
  {
    && s.threads[t].pc.CasClock?
    && var gv := s.threads[t].pc.gv;
       s' == if s.clock == gv then Goto(s, t, Validate(gv + 2, 0, true)).(clock := gv + 2)
             else Goto(s, t, Validate(s.clock, 0, true))
  }

  /** One entry of the read-set is looked at; a bad one is remembered, not acted on. */
  predicate ValidateEntry(s: State, s': State, t: Tid)
    requires t < |s.threads| && |s.locks| == TABSZ
  {
    var T := s.threads[t];
    && T.pc.Validate?
    && T.pc.i < |T.rdSet|
    && T.rdSet[T.pc.i] < TABSZ
    && var good := Coherent(s.locks[T.rdSet[T.pc.i]], t, T.rv);
       s' == Goto(s, t, Validate(T.pc.wv, T.pc.i + 1, T.pc.ok && good))
  }

  /** The whole read-set has been looked at: from here on the transaction is committed, or not. */
  predicate Decide(s: State, s': State, t: Tid)
    requires t < |s.threads|
  {
    var T := s.threads[t];
    && T.pc.Validate?
    && T.pc.i >= |T.rdSet|
    && s' == if T.pc.ok then Finish(s, t, Committed(T.pc.wv, T.wrSet.entries), WriteBack(T.pc.wv, 0))
             else Goto(s, t, Aborting(0))
  }

  predicate WriteBackEntry(s: State, s': State, t: Tid)
    requires t < |s.threads|
  {
    var T := s.threads[t];
    && T.pc.WriteBack?
    && var i := T.pc.i;
       s' == if i < |T.wrSet.entries| then
               var e := T.wrSet.entries[i];
               Goto(s, t, WriteBack(T.pc.wv, i + 1)).(mem := s.mem[e.addr := e.valu])
             else Goto(s, t, Release(T.pc.wv, 0))
  }

  /** Entry `i` gives its lock back with version `n` and thread `t` goes to `pc`. */
  function GiveBack(s: State, t: Tid, i: nat, n: nat, pc: Pc): State
    requires t < |s.threads| && |s.locks| == TABSZ && i < |s.threads[t].wrSet.entries|
  {
    var T := s.threads[t];
    Local(s, t, T.(pc := pc, held := T.held - {i}))
    .(locks := s.locks[LockOf(T, i) := Version(n)])
  }

  predicate DropEntry(s: State, s': State, t: Tid)
    requires t < |s.threads| && |s.locks| == TABSZ
  {
    var T := s.threads[t];
    && T.pc.Release?
    && var i, wv := T.pc.i, T.pc.wv;
       s' == if i >= |T.wrSet.entries| then Goto(s, t, Idle)
             else if i in T.held then GiveBack(s, t, i, wv, Release(wv, i + 1))
             else Goto(s, t, Release(wv, i + 1))
  }

  predicate RestoreEntry(s: State, s': State, t: Tid)
    requires t < |s.threads| && |s.locks| == TABSZ
  {
    var T := s.threads[t];
    && T.pc.Aborting?
    && var i := T.pc.i;
       s' == if !T.holdsLocks || i >= |T.wrSet.entries| then Finish(s, t, Aborted, Idle)
             else if i in T.held then GiveBack(s, t, i, T.held[i], Aborting(i + 1))
             else Goto(s, t, Aborting(i + 1))
  }

  datatype Step =
    | BeginStep | LoadBeginStep(a: Addr) | LoadFirstStep | LoadMemoryStep | LoadSecondStep
    | StoreBeginStep(a: Addr, x: Val) | StoreFirstStep | StoreMemoryStep | StoreSecondStep | RestartStep
    | CommitBeginStep | AcquireLookStep | AcquireRwCasStep | AcquireWLookStep | AcquireWTakeStep
    | ClockLookStep | ClockCasStep | ValidateEntryStep | DecideStep
    | WriteBackEntryStep | DropEntryStep | RestoreEntryStep

  predicate Next(s: State, s': State, t: Tid, step: Step)
    requires |s.locks| == TABSZ
  {
    && t < |s.threads|
    && match step
       case BeginStep => Begin(s, s', t)
       case LoadBeginStep(a) => LoadBegin(s, s', t, a)
       case LoadFirstStep => LoadFirst(s, s', t)
       case LoadMemoryStep => LoadMemory(s, s', t)
       case LoadSecondStep => LoadSecond(s, s', t)
       case StoreBeginStep(a, x) => StoreBegin(s, s', t, a, x)
       case StoreFirstStep => StoreFirst(s, s', t)
       case StoreMemoryStep => StoreMemory(s, s', t)
       case StoreSecondStep => StoreSecond(s, s', t)
       case RestartStep => Restart(s, s', t)
       case CommitBeginStep => CommitBegin(s, s', t)
       case AcquireLookStep => AcquireLook(s, s', t)
       case AcquireRwCasStep => AcquireRwCas(s, s', t)
       case AcquireWLookStep => AcquireWLook(s, s', t)
       case AcquireWTakeStep => AcquireWTake(s, s', t)
       case ClockLookStep => ClockLook(s, s', t)
       case ClockCasStep => ClockCas(s, s', t)
       case ValidateEntryStep => ValidateEntry(s, s', t)
       case DecideStep => Decide(s, s', t)
       case WriteBackEntryStep => WriteBackEntry(s, s', t)
       case DropEntryStep => DropEntry(s, s', t)
       case RestoreEntryStep => RestoreEntry(s, s', t)
  }

  ghost predicate Moved(s: State, s': State) {
    |s.locks| == TABSZ && exists t, step :: Next(s, s', t, step)
  }

  ghost predicate Stepped(run: seq<State>, i: nat)
    requires i + 1 < |run|
  {
    Moved(run[i], run[i + 1])
  }

  /** A run: it starts in an initial state and every state follows from the one before by a step
      of some thread. */
  ghost predicate Run(run: seq<State>) {
    && |run| > 0
    && Init(run[0])
    && forall i: nat :: i + 1 < |run| ==> Stepped(run, i)
  }
}
