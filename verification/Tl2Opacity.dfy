/** Opacity of TL2: every transaction, whether it commits, aborts or is still running, has seen the
    memory of a single version, namely that of its read version. */
module Tl2Opacity {
  import opened Options
  import opened Tl2Log
  import opened Tl2Machine
  import opened Tl2Structure
  import opened Tl2Effects
  import opened Tl2History
  import opened Tl2Invariant

  // ---- Operations ----

  /** The last value that `ops` stored to `a`. */
  function StoredBy(ops: seq<Op>, a: Addr): Option<Val> {
    if ops == [] then None
    else
      var op := ops[|ops| - 1];
      if op.Store? && op.addr == a then Some(op.val) else StoredBy(ops[..|ops| - 1], a)
  }

  lemma StoredByAppend(ops: seq<Op>, op: Op, a: Addr)
    ensures StoredBy(ops + [op], a) == if op.Store? && op.addr == a then Some(op.val) else StoredBy(ops, a)
  {
    assert (ops + [op])[..|ops|] == ops;
  }

  /** A load of `v` from `a` is right after `before`: it returns the transaction's own store if there
      is one, and what the transaction saw in memory otherwise. */
  ghost predicate LoadOk(before: seq<Op>, seen: map<Addr, Val>, a: Addr, v: Val) {
    match StoredBy(before, a)
    case Some(x) => v == x
    case None => a in seen && seen[a] == v
  }

  ghost predicate LoadsOk(ops: seq<Op>, seen: map<Addr, Val>) {
    forall j :: 0 <= j < |ops| && ops[j].Load? ==> LoadOk(ops[..j], seen, ops[j].addr, ops[j].val)
  }

  /** The write-set holds the last store to each address; a store it does not hold is one that memory
      was seen to have made redundant. */
  ghost predicate StoresOk(ops: seq<Op>, seen: map<Addr, Val>, es: seq<Pair>) {
    forall a {:trigger LastStore(es, a)} {:trigger StoredBy(ops, a)} ::
      if LastStore(es, a).Some? then StoredBy(ops, a) == LastStore(es, a)
      else StoredBy(ops, a).Some? ==> a in seen && seen[a] == StoredBy(ops, a).value
  }

  lemma LoadsOkAppend(ops: seq<Op>, seen: map<Addr, Val>, op: Op, seen': map<Addr, Val>)
    requires LoadsOk(ops, seen)
    requires forall a :: a in seen ==> a in seen' && seen'[a] == seen[a]
    requires op.Load? ==> LoadOk(ops, seen', op.addr, op.val)
    ensures LoadsOk(ops + [op], seen')
  {
    var ops' := ops + [op];
    forall j | 0 <= j < |ops'| && ops'[j].Load? ensures LoadOk(ops'[..j], seen', ops'[j].addr, ops'[j].val) {
      if j < |ops| {
        assert ops'[..j] == ops[..j] && ops'[j] == ops[j];
        assert LoadOk(ops[..j], seen, ops[j].addr, ops[j].val);
      } else {
        assert ops'[..j] == ops;
      }
    }
  }

  /** An address on its way to being read from memory is not in the write-set. */
  ghost predicate Missed(T: Thread) {
    (T.pc.LoadLock? || T.pc.LoadValue? || T.pc.LoadRecheck? || T.pc.StoreRecheck?) ==>
      LastStore(T.wrSet.entries, T.pc.a).None?
  }

  ghost predicate ThreadOps(T: Thread) {
    LoadsOk(T.ops, T.seen) && StoresOk(T.ops, T.seen, T.wrSet.entries) && Missed(T)
  }

  lemma OpsLookup(T: Thread, a: Addr, v: Val)
    requires ThreadOps(T) && Filtered(T.wrSet) && Lookup(T.wrSet, a) == Some(v) && T.pc == Active
    ensures ThreadOps(T.(ops := T.ops + [Load(a, v)]))
  {
    LookupExact(T.wrSet, a);
    LoadsOkAppend(T.ops, T.seen, Load(a, v), T.seen);
    forall b ensures StoredBy(T.ops + [Load(a, v)], b) == StoredBy(T.ops, b) {
      StoredByAppend(T.ops, Load(a, v), b);
    }
  }

  lemma OpsTracked(T: Thread, a: Addr, v: Val, op: Op)
    requires ThreadOps(T)
    requires op == Load(a, v) || op == Store(a, v)
    requires LastStore(T.wrSet.entries, a).None?
    requires a in T.seen ==> T.seen[a] == v
    ensures ThreadOps(Tracked(T, a, v, op))
  {
    LoadsOkAppend(T.ops, T.seen, op, T.seen[a := v]);
    forall b ensures StoredBy(T.ops + [op], b) == if op.Store? && b == a then Some(v) else StoredBy(T.ops, b) {
      StoredByAppend(T.ops, op, b);
    }
  }

  lemma OpsRecorded(T: Thread, a: Addr, x: Val)
    requires ThreadOps(T)
    ensures ThreadOps(Recorded(T, a, x))
  {
    LoadsOkAppend(T.ops, T.seen, Store(a, x), T.seen);
    forall b
      ensures StoredBy(T.ops + [Store(a, x)], b) == if b == a then Some(x) else StoredBy(T.ops, b)
      ensures LastStore(T.wrSet.entries + [Pair(a, x)], b) == if b == a then Some(x) else LastStore(T.wrSet.entries, b)
    {
      StoredByAppend(T.ops, Store(a, x), b);
      LastStoreAppend(T.wrSet.entries, Pair(a, x), b);
    }
  }

  lemma OpsReplaced(T: Thread, a: Addr, x: Val)
    requires ThreadOps(T) && LastStore(T.wrSet.entries, a).Some?
    ensures ThreadOps(Replaced(T, a, x))
  {
    LoadsOkAppend(T.ops, T.seen, Store(a, x), T.seen);
    forall b
      ensures StoredBy(T.ops + [Store(a, x)], b) == if b == a then Some(x) else StoredBy(T.ops, b)
      ensures LastStore(Replace(T.wrSet.entries, a, x), b) == if b == a then Some(x) else LastStore(T.wrSet.entries, b)
    {
      StoredByAppend(T.ops, Store(a, x), b);
      LastStoreReplace(T.wrSet.entries, a, x, b);
    }
  }

  ghost predicate RecordOps(r: TxRecord) {
    && LoadsOk(r.ops, r.seen)
    && (r.outcome.Committed? ==> StoresOk(r.ops, r.seen, r.outcome.writes))
    && (r.outcome.ReadOnly? ==> StoresOk(r.ops, r.seen, []))
  }

  // ---- Loads in flight ----

  ghost predicate InFlight(s: State, T: Thread)
    requires |s.locks| == TABSZ
  {
    match T.pc
    case LoadValue(a, rdv) => rdv <= StripeVersion(s, PsLock(a))
    case LoadRecheck(a, rdv, v) => Settled(s, a, rdv, v)
    case StoreValue(a, _, cv) => cv.Version? ==> cv.n <= StripeVersion(s, PsLock(a))
    case StoreRecheck(a, x, rdv) => Settled(s, a, rdv, x)
    case _ => true
  }

  lemma InFlightOther(s: State, s': State, t: Tid, T: Thread)
    requires Structure(s) && Effect(s, s', t) && |s'.locks| == TABSZ
    requires InFlight(s, T)
    ensures InFlight(s', T)
  {
    match T.pc
    case LoadValue(a, rdv) => VersionsRise(s, s', t, PsLock(a));
    case LoadRecheck(a, rdv, v) => SettledStep(s, s', t, a, rdv, v);
    case StoreValue(a, _, cv) => VersionsRise(s, s', t, PsLock(a));
    case StoreRecheck(a, x, rdv) => SettledStep(s, s', t, a, rdv, x);
    case _ =>
  }

  // ---- The invariant ----

  /** The version at which a finished transaction takes its place in the serial order. */
  function SerialVersion(r: TxRecord): nat {
    if r.outcome.Committed? then r.outcome.wv else r.rv
  }

  /** Everything that had finished when the transaction started is visible at its read version. */
  ghost predicate StartOk(done: seq<TxRecord>, start: nat, rv: nat) {
    start <= |done| && forall j :: 0 <= j < start ==> SerialVersion(done[j]) <= rv
  }

  ghost predicate ThreadInv(s: State, t: Tid)
    requires |s.locks| == TABSZ && t < |s.threads|
  {
    var T := s.threads[t];
    && InFlight(s, T)
    && SeenOk(s, T.rv, T.seen)
    && Guarded(s, T.seen, T.rv)
    && Validated(s, t)
    && StartOk(s.done, T.start, T.rv)
    && ThreadOps(T)
  }

  ghost predicate RecordInv(s: State, d: nat)
    requires |s.locks| == TABSZ && d < |s.done|
  {
    var r := s.done[d];
    && r.rv <= s.clock
    && (r.outcome.Committed? ==> r.rv < r.outcome.wv <= s.clock)
    && r.start <= d
    && StartOk(s.done, r.start, r.rv)
    && SeenOk(s, r.rv, r.seen)
    && Guarded(s, r.seen, r.rv)
    && (r.outcome.Committed? ==> Guarded(s, r.seen, r.outcome.wv))
    && RecordOps(r)
  }

  ghost predicate Inv(s: State) {
    && Structure(s)
    && (forall t :: 0 <= t < |s.threads| ==> ThreadInv(s, t))
    && (forall d :: 0 <= d < |s.done| ==> RecordInv(s, d))
    && (forall a: Addr :: MemOkAt(s, a))
    && CommitsBelow(s)
    && CommitsAscend(s.done)
    && Isolated(s.done)
  }

  lemma InvInit(s: State)
    requires Init(s)
    ensures Inv(s)
  {
    StructureInit(s);
    assert LastStore([], 0) == None;
  }

  /** The heart of the matter: a value read between two looks at an unlocked stripe of version
      `rdv <= rv` is the value memory has as of version `rv`. */
  lemma ReadIsCurrent(s: State, s': State, t: Tid, a: Addr, rdv: nat, v: Val)
    requires Inv(s) && Reads(s, s', t, a, rdv, v)
    ensures v == ValueAt(s.mem0, s.done, s.threads[t].rv, a)
  {
    assert ThreadInv(s, t);
    assert ThreadOk(s.clock, s.locks, t, s.threads[t]);
    assert Settled(s, a, rdv, v);
    assert MemOkAt(s, a);
    ValueAtAgree(s.mem0, s.done, s.threads[t].rv, s.clock, a);
  }

  lemma StartOkGrows(done: seq<TxRecord>, done': seq<TxRecord>, start: nat, rv: nat)
    requires StartOk(done, start, rv) && |done| <= |done'| && done'[..|done|] == done
    ensures StartOk(done', start, rv)
  {
    forall j | 0 <= j < start ensures SerialVersion(done'[j]) <= rv {
      assert done'[j] == done'[..|done|][j];
    }
  }

  lemma ThreadInvOther(s: State, s': State, t: Tid, o: Tid)
    requires Inv(s) && Effect(s, s', t) && Structure(s') && |s'.threads| == |s.threads|
    requires o < |s.threads| && o != t && s'.threads[o] == s.threads[o]
    ensures ThreadInv(s', o)
  {
    var T := s.threads[o];
    assert ThreadInv(s, o) && ThreadOk(s.clock, s.locks, o, T);
    InFlightOther(s, s', t, T);
    SeenStep(s, s', t, T.rv, T.seen);
    GuardedStep(s, s', t, T.seen, T.rv);
    ValidatedOther(s, s', t, o);
    DoneGrows(s, s', t);
    StartOkGrows(s.done, s'.done, T.start, T.rv);
  }

  lemma RecordInvOld(s: State, s': State, t: Tid, d: nat)
    requires Inv(s) && Effect(s, s', t) && Structure(s') && |s'.threads| == |s.threads| && s.clock <= s'.clock
    requires d < |s.done|
    ensures d < |s'.done| && RecordInv(s', d)
  {
    var r := s.done[d];
    assert RecordInv(s, d);
    DoneGrows(s, s', t);
    assert s'.done[d] == r;
    SeenStep(s, s', t, r.rv, r.seen);
    GuardedStep(s, s', t, r.seen, r.rv);
    if r.outcome.Committed? {
      GuardedStep(s, s', t, r.seen, r.outcome.wv);
    }
    StartOkGrows(s.done, s'.done, r.start, r.rv);
  }

  // ---- The thread that takes the step ----

  /** A transaction that begins has seen nothing, and starts after all that has finished. */
  lemma SelfBegins(s: State, s': State, t: Tid)
    requires Inv(s) && Begins(s, s', t) && Structure(s')
    ensures t < |s'.threads| && SelfKnows(s', s'.threads[t])
  {
    forall d | 0 <= d < |s.done| ensures SerialVersion(s.done[d]) <= s.clock {
      assert RecordInv(s, d);
    }
  }

  /** What a thread has seen, after its own step. */
  ghost predicate SelfKnows(s: State, T: Thread)
    requires |s.locks| == TABSZ
  {
    SeenOk(s, T.rv, T.seen) && Guarded(s, T.seen, T.rv) && StartOk(s.done, T.start, T.rv)
  }

  /** What the transaction knew before the step still holds after it. */
  lemma SelfStillKnows(s: State, s': State, t: Tid)
    requires Inv(s) && Effect(s, s', t) && Structure(s')
    ensures t < |s'.threads| == |s.threads| && SelfKnows(s', s.threads[t])
  {
    var T := s.threads[t];
    assert ThreadInv(s, t) && ThreadOk(s.clock, s.locks, t, T);
    DoneGrows(s, s', t);
    SeenStep(s, s', t, T.rv, T.seen);
    GuardedStep(s, s', t, T.seen, T.rv);
    StartOkGrows(s.done, s'.done, T.start, T.rv);
  }

  lemma SelfReads(s: State, s': State, t: Tid, a: Addr, rdv: nat, v: Val)
    requires Inv(s) && Structure(s') && Reads(s, s', t, a, rdv, v)
    requires t < |s'.threads| == |s.threads| && SelfKnows(s', s.threads[t])
    ensures SelfKnows(s', s'.threads[t])
  {
    ReadIsCurrent(s, s', t, a, rdv, v);
  }

  lemma SelfSeen(s: State, s': State, t: Tid)
    requires Inv(s) && Effect(s, s', t) && Structure(s')
    ensures t < |s'.threads| == |s.threads| && SelfKnows(s', s'.threads[t])
  {
    SelfStillKnows(s, s', t);
    if Begins(s, s', t) {
      SelfBegins(s, s', t);
    } else if a, rdv, v :| Reads(s, s', t, a, rdv, v) {
      SelfReads(s, s', t, a, rdv, v);
    } else {
      SameReader(s, s', t);
    }
  }

  lemma SameReader(s: State, s': State, t: Tid)
    requires Effect(s, s', t) && !Begins(s, s', t) && !exists a, rdv, v :: Reads(s, s', t, a, rdv, v)
    ensures s'.threads[t].rv == s.threads[t].rv && s'.threads[t].seen == s.threads[t].seen
    ensures s'.threads[t].start == s.threads[t].start
  {
  }

  lemma SelfOpsLoad(s: State, s': State, t: Tid)
    requires Inv(s) && t < |s.threads| && LoadSecond(s, s', t)
    ensures ThreadOps(s'.threads[t])
  {
    var T := s.threads[t];
    assert ThreadInv(s, t) && ThreadOk(s.clock, s.locks, t, T);
    if s'.threads[t].pc == Active {
      assert Reads(s, s', t, T.pc.a, T.pc.rdv, T.pc.v);
      ReadIsCurrent(s, s', t, T.pc.a, T.pc.rdv, T.pc.v);
      OpsTracked(T, T.pc.a, T.pc.v, Load(T.pc.a, T.pc.v));
    }
  }

  lemma SelfOpsRestore(s: State, s': State, t: Tid)
    requires Inv(s) && t < |s.threads| && StoreSecond(s, s', t)
    ensures ThreadOps(s'.threads[t])
  {
    var T := s.threads[t];
    assert ThreadInv(s, t) && ThreadOk(s.clock, s.locks, t, T);
    if s.locks[PsLock(T.pc.a)] == Version(T.pc.rdv) && s'.threads[t].pc == Active {
      assert Reads(s, s', t, T.pc.a, T.pc.rdv, T.pc.x);
      ReadIsCurrent(s, s', t, T.pc.a, T.pc.rdv, T.pc.x);
      OpsTracked(T, T.pc.a, T.pc.x, Store(T.pc.a, T.pc.x));
    } else {
      OpsRecorded(T, T.pc.a, T.pc.x);
    }
  }

  lemma SelfOpsBegin(s: State, s': State, t: Tid, a: Addr)
    requires Structure(s) && t < |s.threads| && ThreadOps(s.threads[t])
    requires LoadBegin(s, s', t, a)
    ensures ThreadOps(s'.threads[t])
  {
    var T := s.threads[t];
    assert ThreadOk(s.clock, s.locks, t, T);
    LookupExact(T.wrSet, a);
    if v :| Lookup(T.wrSet, a) == Some(v) {
      OpsLookup(T, a, v);
    }
  }

  lemma SelfOpsStore(s: State, s': State, t: Tid)
    requires t < |s.threads| && ThreadOps(s.threads[t])
    requires StoreMemory(s, s', t)
    ensures ThreadOps(s'.threads[t])
  {
    var T := s.threads[t];
    if LastStore(T.wrSet.entries, T.pc.a).Some? {
      OpsReplaced(T, T.pc.a, T.pc.x);
    }
    OpsRecorded(T, T.pc.a, T.pc.x);
  }

  /** Within the body of a transaction, steps that log nothing leave the log right. */
  lemma OpsKept(T: Thread, T': Thread)
    requires ThreadOps(T)
    requires T'.ops == T.ops && T'.seen == T.seen && T'.wrSet == T.wrSet && Missed(T')
    ensures ThreadOps(T')
  {
  }

  lemma FreshOps(pc: Pc, isRO: bool, rv: nat, start: nat)
    requires pc == Active
    ensures ThreadOps(Fresh(pc, isRO, rv, start))
  {
  }

  /** The thread's log is as it was and it has no load in flight. */
  ghost predicate LogsNothing(T: Thread, T': Thread) {
    && T'.ops == T.ops && T'.seen == T.seen && T'.wrSet == T.wrSet
    && !T'.pc.LoadLock? && !T'.pc.LoadValue? && !T'.pc.LoadRecheck? && !T'.pc.StoreValue? && !T'.pc.StoreRecheck?
  }

  lemma LookLogsNothing(s: State, s': State, t: Tid)
    requires |s.locks| == TABSZ && t < |s.threads| && AcquireLook(s, s', t)
    ensures t < |s'.threads| && |s'.locks| == TABSZ && LogsNothing(s.threads[t], s'.threads[t])
  {
    assert s' == Goto(s, t, s'.threads[t].pc);
  }

  lemma WriteLookLogsNothing(s: State, s': State, t: Tid)
    requires |s.locks| == TABSZ && t < |s.threads| && AcquireWLook(s, s', t)
    ensures t < |s'.threads| && |s'.locks| == TABSZ && LogsNothing(s.threads[t], s'.threads[t])
  {
    assert s' == Goto(s, t, s'.threads[t].pc);
  }

  lemma CommitBeginLogsNothing(s: State, s': State, t: Tid)
    requires |s.locks| == TABSZ && t < |s.threads| && CommitBegin(s, s', t)
    ensures t < |s'.threads| && |s'.locks| == TABSZ && LogsNothing(s.threads[t], s'.threads[t])
  {
  }

  lemma CasLogsNothing(s: State, s': State, t: Tid)
    requires |s.locks| == TABSZ && t < |s.threads| && AcquireRwCas(s, s', t)
    ensures t < |s'.threads| && |s'.locks| == TABSZ && LogsNothing(s.threads[t], s'.threads[t])
  {
  }

  lemma TakeLogsNothing(s: State, s': State, t: Tid)
    requires |s.locks| == TABSZ && t < |s.threads| && AcquireWTake(s, s', t)
    ensures t < |s'.threads| && |s'.locks| == TABSZ && LogsNothing(s.threads[t], s'.threads[t])
  {
  }

  lemma ClockLogsNothing(s: State, s': State, t: Tid)
    requires |s.locks| == TABSZ && t < |s.threads|
    requires ClockLook(s, s', t) || ClockCas(s, s', t)
    ensures t < |s'.threads| && |s'.locks| == TABSZ && LogsNothing(s.threads[t], s'.threads[t])
  {
  }

  lemma ValidateLogsNothing(s: State, s': State, t: Tid)
    requires |s.locks| == TABSZ && t < |s.threads|
    requires ValidateEntry(s, s', t) || Decide(s, s', t)
    ensures t < |s'.threads| && |s'.locks| == TABSZ && LogsNothing(s.threads[t], s'.threads[t])
  {
  }

  lemma WriteBackLogsNothing(s: State, s': State, t: Tid)
    requires |s.locks| == TABSZ && t < |s.threads|
    requires WriteBackEntry(s, s', t)
    ensures t < |s'.threads| && |s'.locks| == TABSZ && LogsNothing(s.threads[t], s'.threads[t])
  {
  }

  lemma GiveLogsNothing(s: State, s': State, t: Tid)
    requires |s.locks| == TABSZ && t < |s.threads|
    requires DropEntry(s, s', t) || RestoreEntry(s, s', t)
    ensures t < |s'.threads| && |s'.locks| == TABSZ && LogsNothing(s.threads[t], s'.threads[t])
  {
    if DropEntry(s, s', t) {
      assert LogsNothing(s.threads[t], s'.threads[t]);
    }
  }

  /** Acquiring, validating, writing back, releasing and aborting log nothing and load nothing. */
  lemma CommitLogsNothing(s: State, s': State, t: Tid, step: Step)
    requires |s.locks| == TABSZ && Next(s, s', t, step)
    requires !step.BeginStep? && !step.LoadBeginStep? && !step.LoadFirstStep? && !step.LoadMemoryStep?
    requires !step.LoadSecondStep?
    requires !step.StoreBeginStep? && !step.StoreFirstStep? && !step.StoreMemoryStep? && !step.StoreSecondStep?
    requires !step.RestartStep?
    ensures t < |s'.threads| && |s'.locks| == TABSZ && LogsNothing(s.threads[t], s'.threads[t])
  {
    match step
    case AcquireLookStep => LookLogsNothing(s, s', t);
    case AcquireWLookStep => WriteLookLogsNothing(s, s', t);
    case CommitBeginStep => CommitBeginLogsNothing(s, s', t);
    case AcquireRwCasStep => CasLogsNothing(s, s', t);
    case AcquireWTakeStep => TakeLogsNothing(s, s', t);
    case ClockLookStep | ClockCasStep => ClockLogsNothing(s, s', t);
    case ValidateEntryStep | DecideStep => ValidateLogsNothing(s, s', t);
    case WriteBackEntryStep => WriteBackLogsNothing(s, s', t);
    case DropEntryStep | RestoreEntryStep => GiveLogsNothing(s, s', t);
  }

  lemma SelfOpsBody(s: State, s': State, t: Tid, step: Step)
    requires |s.locks| == TABSZ && Next(s, s', t, step) && ThreadOps(s.threads[t])
    requires step.LoadFirstStep? || step.LoadMemoryStep? || step.StoreBeginStep? || step.StoreFirstStep? ||
        step.RestartStep?
    ensures t < |s'.threads| && ThreadOps(s'.threads[t])
  {
    OpsKept(s.threads[t], s'.threads[t]);
  }

  lemma SelfOps(s: State, s': State, t: Tid, step: Step)
    requires Inv(s) && Next(s, s', t, step)
    ensures t < |s'.threads| && ThreadOps(s'.threads[t])
  {
    assert ThreadInv(s, t);
    match step
    case BeginStep => FreshOps(Active, s'.threads[t].isRO, s.clock, |s.done|);
    case LoadBeginStep(a) => SelfOpsBegin(s, s', t, a);
    case LoadSecondStep => SelfOpsLoad(s, s', t);
    case StoreSecondStep => SelfOpsRestore(s, s', t);
    case StoreMemoryStep => SelfOpsStore(s, s', t);
    case LoadFirstStep | LoadMemoryStep | StoreBeginStep(_, _) | StoreFirstStep | RestartStep =>
        SelfOpsBody(s, s', t, step);
    case _ =>
      CommitLogsNothing(s, s', t, step);
      OpsKept(s.threads[t], s'.threads[t]);
  }

  lemma SelfLoadInFlight(s: State, s': State, t: Tid)
    requires Structure(s) && t < |s.threads| && InFlight(s, s.threads[t])
    requires LoadFirst(s, s', t) || LoadMemory(s, s', t)
    ensures InFlight(s', s'.threads[t])
  {
    var k := PsLock(s.threads[t].pc.a);
    assert ThreadOk(s.clock, s.locks, t, s.threads[t]);
    assert SameGrip(s, s', t);
    GripKeepsStripe(s, s', t, k);
  }

  lemma SelfStoreInFlight(s: State, s': State, t: Tid)
    requires Structure(s) && t < |s.threads| && InFlight(s, s.threads[t])
    requires StoreFirst(s, s', t) || StoreMemory(s, s', t)
    ensures InFlight(s', s'.threads[t])
  {
    var k := PsLock(s.threads[t].pc.a);
    assert ThreadOk(s.clock, s.locks, t, s.threads[t]);
    assert SameGrip(s, s', t);
    GripKeepsStripe(s, s', t, k);
  }

  lemma SelfBodyInFlight(s: State, s': State, t: Tid, step: Step)
    requires Inv(s) && Next(s, s', t, step) && (step.BeginStep? || step.LoadBeginStep? || step.LoadSecondStep?)
    ensures |s'.locks| == TABSZ && t < |s'.threads| && InFlight(s', s'.threads[t])
  {
    assert ThreadInv(s, t);
  }

  lemma SelfRestInFlight(s: State, s': State, t: Tid, step: Step)
    requires Inv(s) && Next(s, s', t, step) && (step.StoreBeginStep? || step.StoreSecondStep? || step.RestartStep?)
    ensures |s'.locks| == TABSZ && t < |s'.threads| && InFlight(s', s'.threads[t])
  {
    assert ThreadInv(s, t);
  }

  lemma SelfInFlight(s: State, s': State, t: Tid, step: Step)
    requires Inv(s) && Next(s, s', t, step)
    ensures |s'.locks| == TABSZ && t < |s'.threads| && InFlight(s', s'.threads[t])
  {
    match step
    case LoadFirstStep | LoadMemoryStep =>
      assert ThreadInv(s, t);
      SelfLoadInFlight(s, s', t);
    case StoreFirstStep | StoreMemoryStep =>
      assert ThreadInv(s, t);
      SelfStoreInFlight(s, s', t);
    case BeginStep | LoadBeginStep(_) | LoadSecondStep => SelfBodyInFlight(s, s', t, step);
    case StoreBeginStep(_, _) | StoreSecondStep | RestartStep => SelfRestInFlight(s, s', t, step);
    case _ => CommitLogsNothing(s, s', t, step);
  }

  // ---- The record of a transaction that finishes ----

  lemma CommitGuarded(s: State, s': State, t: Tid)
    requires Inv(s) && Commits(s, s', t) && Structure(s')
    ensures Guarded(s', s.threads[t].seen, s.threads[t].pc.wv)
  {
    var T := s.threads[t];
    assert ThreadInv(s, t);
    forall a | a in T.seen ensures OwnerAbove(s', PsLock(a), T.pc.wv, |s'.threads|) {
      CommitValidated(s, s', t, a);
    }
  }

  lemma RecordInvNew(s: State, s': State, t: Tid)
    requires Inv(s) && (Commits(s, s', t) || Ends(s, s', t)) && Structure(s')
    ensures |s'.done| == |s.done| + 1 && RecordInv(s', |s.done|)
  {
    var T := s.threads[t];
    assert ThreadInv(s, t) && ThreadOk(s.clock, s.locks, t, T);
    SelfSeen(s, s', t);
    if Commits(s, s', t) {
      CommitGuarded(s, s', t);
    }
  }

  ghost predicate Clear(d: TxRecord, e: TxRecord) {
    d.outcome.Committed? && e.outcome.Committed? ==> e.outcome.wv <= d.rv || d.outcome.wv < e.outcome.wv
  }

  lemma NewReader(s: State, s': State, t: Tid, e: nat, a: Addr, b: Addr)
    requires Inv(s) && Commits(s, s', t) && e < |s.done| && |s'.done| == |s.done| + 1
    requires a in s'.done[|s.done|].seen && Wrote(s.done[e], b).Some? && PsLock(a) == PsLock(b)
    ensures Clear(s'.done[|s.done|], s.done[e])
  {
    assert ThreadInv(s, t);
    CommitValidated(s, s', t, a);
  }

  lemma NewWriter(s: State, s': State, t: Tid, d: nat, a: Addr, b: Addr)
    requires Inv(s) && Commits(s, s', t) && d < |s.done| && |s'.done| == |s.done| + 1 && s.done[d].outcome.Committed?
    requires a in s.done[d].seen && Wrote(s'.done[|s.done|], b).Some? && PsLock(a) == PsLock(b)
    ensures Clear(s.done[d], s'.done[|s.done|])
  {
    assert RecordInv(s, d);
    CommitOwns(s, s', t, b);
  }

  lemma IsolatedStep(s: State, s': State, t: Tid)
    requires Inv(s) && Effect(s, s', t)
    ensures Isolated(s'.done)
  {
    DoneGrows(s, s', t);
    var n := |s.done|;
    forall d, e, a, b | 0 <= d < |s'.done| && 0 <= e < |s'.done| && d != e && s'.done[d].outcome.Committed? &&
                        a in s'.done[d].seen && Wrote(s'.done[e], b).Some? && PsLock(a) == PsLock(b)
      ensures s'.done[e].outcome.wv <= s'.done[d].rv || s'.done[d].outcome.wv < s'.done[e].outcome.wv
    {
      if d == n {
        NewReader(s, s', t, e, a, b);
      } else if e == n {
        NewWriter(s, s', t, d, a, b);
      } else {
        assert s'.done[d] == s.done[d] && s'.done[e] == s.done[e];
      }
    }
  }

  // ---- Every step ----

  lemma ClockRises(s: State, s': State, t: Tid)
    requires Effect(s, s', t)
    ensures s.clock <= s'.clock && |s'.threads| == |s.threads| && t < |s.threads|
    ensures forall o :: 0 <= o < |s.threads| && o != t ==> s'.threads[o] == s.threads[o]
    ensures s'.done != s.done ==> Commits(s, s', t) || Ends(s, s', t)
  {
  }

  lemma InvStep(s: State, s': State, t: Tid, step: Step)
    requires Inv(s) && Next(s, s', t, step)
    ensures Inv(s')
  {
    StructureStep(s, s', t, step);
    EffectOfStep(s, s', t, step);
    ClockRises(s, s', t);
    DoneGrows(s, s', t);
    forall o | 0 <= o < |s'.threads| ensures ThreadInv(s', o) {
      if o == t {
        assert ThreadInv(s, t);
        SelfSeen(s, s', t);
        SelfOps(s, s', t, step);
        SelfInFlight(s, s', t, step);
        ValidatedSelf(s, s', t);
      } else {
        ThreadInvOther(s, s', t, o);
      }
    }
    forall d | 0 <= d < |s'.done| ensures RecordInv(s', d) {
      if d < |s.done| {
        RecordInvOld(s, s', t, d);
      } else {
        RecordInvNew(s, s', t);
      }
    }
    forall d | 0 <= d < |s.done| && s.done[d].outcome.Committed? ensures s.done[d].outcome.wv <= s.clock {
      assert RecordInv(s, d);
    }
    forall a: Addr ensures MemOkAt(s', a) {
      MemStep(s, s', t, a);
    }
    CommitsBelowStep(s, s', t);
    CommitsAscendStep(s, s', t);
    IsolatedStep(s, s', t);
  }

  lemma {:induction false} InvRun(run: seq<State>, i: nat)
    requires Run(run) && i < |run|
    ensures Inv(run[i])
  {
    if i == 0 {
      InvInit(run[0]);
    } else {
      InvRun(run, i - 1);
      assert Stepped(run, i - 1);
      var t, step :| Next(run[i - 1], run[i], t, step);
      InvStep(run[i - 1], run[i], t, step);
    }
  }
}