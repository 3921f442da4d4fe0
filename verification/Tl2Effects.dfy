/** What a step does, seen from the outside.  The steps of the machine fall into a few kinds by
    what they change of the lock table, the clock, the memory and the history; everything that
    is said about runs is proved from these kinds. */
module Tl2Effects {
  import opened Tl2Log
  import opened Tl2Machine
  import opened Tl2Structure

  /** The thread has committed and is writing back or dropping its locks. */
  predicate Committing(pc: Pc) {
    pc.WriteBack? || pc.Release?
  }

  /** Only thread `t` moved, and it kept its read version and what it has read. */
  ghost predicate OnlyThread(s: State, s': State, t: Tid) {
    && t < |s.threads|
    && |s'.threads| == |s.threads|
    && s'.mem0 == s.mem0
    && |s.locks| == |s'.locks| == TABSZ
    && forall o :: 0 <= o < |s.threads| && o != t ==> s'.threads[o] == s.threads[o]
  }

  ghost predicate SameTx(T: Thread, T': Thread) {
    T'.rv == T.rv && T'.seen == T.seen && T'.start == T.start && T'.rdSet == T.rdSet
  }

  /** Nothing shared changes and the clock is not consulted. */
  ghost predicate Quiet(s: State, s': State, t: Tid) {
    && OnlyThread(s, s', t)
    && s' == s.(threads := s'.threads)
    && var T, T' := s.threads[t], s'.threads[t];
       && SameTx(T, T')
       && T'.held == T.held
       && (T.held == map[] || T'.wrSet == T.wrSet)
       && !T'.pc.CasClock? && !T'.pc.Validate? && !T'.pc.WriteBack?
       && (T.pc.WriteBack? ==> T.pc.i >= |T.wrSet.entries|)
       && (T.held == map[] || Committing(T.pc) == Committing(T'.pc))
       && (T.held != map[] && Committing(T.pc) ==> T'.pc.wv == T.pc.wv)
  }

  ghost predicate Begins(s: State, s': State, t: Tid) {
    && OnlyThread(s, s', t)
    && s' == s.(threads := s'.threads)
    && s.threads[t].held == s'.threads[t].held == map[]
    && (s'.threads[t] == Fresh(Active, false, s.clock, |s.done|) ||
        s'.threads[t] == Fresh(Active, true, s.clock, |s.done|))
  }

  /** Thread `t` reads `v` from `a` under an unlocked, old enough version. */
  ghost predicate Reads(s: State, s': State, t: Tid, a: Addr, rdv: nat, v: Val) {
    && OnlyThread(s, s', t)
    && s' == s.(threads := s'.threads)
    && var T, T' := s.threads[t], s'.threads[t];
       && (T.pc == LoadRecheck(a, rdv, v) || T.pc == StoreRecheck(a, v, rdv))
       && rdv <= T.rv && s.locks[PsLock(a)] == Version(rdv)
       && T'.rv == T.rv && T'.start == T.start && T'.seen == T.seen[a := v]
       && T'.held == T.held == map[] && T'.pc == Active
  }

  ghost predicate Takes(s: State, s': State, t: Tid, i: nat, rdv: nat) {
    && OnlyThread(s, s', t)
    && s.clock == s'.clock && s.mem == s'.mem && s.done == s'.done
    && var T, T' := s.threads[t], s'.threads[t];
       && SameTx(T, T')
       && i < |T.wrSet.entries|
       && s.locks[LockOf(T, i)] == Version(rdv)
       && s'.locks == s.locks[LockOf(T, i) := Locked(t, i)]
       && T'.held == T.held[i := rdv]
       && T'.wrSet == T.wrSet
       && !Committing(T.pc) && T'.pc == Acquire(i + 1)
  }

  /** Entry `i` of thread `t` returns its lock: with the write version if the transaction has
      committed, and with the version it found otherwise. */
  ghost predicate Gives(s: State, s': State, t: Tid, i: nat) {
    && OnlyThread(s, s', t)
    && s.clock == s'.clock && s.mem == s'.mem && s.done == s'.done
    && var T, T' := s.threads[t], s'.threads[t];
       && SameTx(T, T')
       && i < |T.wrSet.entries| && i in T.held
       && s.locks[LockOf(T, i)] == Locked(t, i)
       && T'.held == T.held - {i}
       && T'.wrSet == T.wrSet
       && (T.pc.Release? || T.pc.Aborting?) && T'.pc == T.pc.(i := i + 1)
       && s'.locks == s.locks[LockOf(T, i) := Version(if T.pc.Release? then T.pc.wv else T.held[i])]
  }

  ghost predicate LooksAtClock(s: State, s': State, t: Tid) {
    && OnlyThread(s, s', t)
    && s' == s.(threads := s'.threads)
    && s.threads[t].pc == ReadClock
    && s'.threads[t] == s.threads[t].(pc := CasClock(s.clock))
  }

  ghost predicate GetsVersion(s: State, s': State, t: Tid, wv: nat) {
    && OnlyThread(s, s', t)
    && s' == s.(threads := s'.threads, clock := s'.clock)
    && s.threads[t].pc.CasClock?
    && s.threads[t].pc.gv < wv == s'.clock && s.clock <= s'.clock
    && s'.threads[t] == s.threads[t].(pc := Validate(wv, 0, true))
  }

  ghost predicate Validates(s: State, s': State, t: Tid) {
    && OnlyThread(s, s', t)
    && s' == s.(threads := s'.threads)
    && var T, T' := s.threads[t], s'.threads[t];
       && T.pc.Validate? && T.pc.i < |T.rdSet| && T.rdSet[T.pc.i] < TABSZ
       && T'.pc.Validate? && T' == T.(pc := Validate(T.pc.wv, T.pc.i + 1, T'.pc.ok))
       && (T'.pc.ok ==> T.pc.ok && match s.locks[T.rdSet[T.pc.i]]
                                   case Version(n) => n <= T.rv
                                   case Locked(o, _) => o == t)
  }

  ghost predicate Commits(s: State, s': State, t: Tid) {
    && OnlyThread(s, s', t)
    && var T, T' := s.threads[t], s'.threads[t];
       && T.pc.Validate? && T.pc.ok && T.pc.i >= |T.rdSet|
       && T' == T.(pc := WriteBack(T.pc.wv, 0))
       && s' == s.(threads := s'.threads,
                   done := s.done + [TxRecord(T.rv, T.start, T.ops, T.seen, Committed(T.pc.wv, T.wrSet.entries))])
  }

  ghost predicate WritesBack(s: State, s': State, t: Tid) {
    && OnlyThread(s, s', t)
    && var T, T' := s.threads[t], s'.threads[t];
       && T.pc.WriteBack? && T.pc.i < |T.wrSet.entries|
       && T' == T.(pc := WriteBack(T.pc.wv, T.pc.i + 1))
       && s' == s.(threads := s'.threads,
                   mem := s.mem[T.wrSet.entries[T.pc.i].addr := T.wrSet.entries[T.pc.i].valu])
  }

  /** A transaction ends without having written anything. */
  ghost predicate Ends(s: State, s': State, t: Tid) {
    && OnlyThread(s, s', t)
    && var T, T' := s.threads[t], s'.threads[t];
       && T.held == map[] && T' == T.(pc := Idle) && !Committing(T.pc)
       && (s' == s.(threads := s'.threads, done := s.done + [TxRecord(T.rv, T.start, T.ops, T.seen, Aborted)])
           || (T.pc == Active && T.wrSet.entries == []
               && s' == s.(threads := s'.threads, done := s.done + [TxRecord(T.rv, T.start, T.ops, T.seen, ReadOnly)])))
  }

  ghost predicate Effect(s: State, s': State, t: Tid) {
    || Quiet(s, s', t)
    || Begins(s, s', t)
    || (exists a, rdv, v :: Reads(s, s', t, a, rdv, v))
    || (exists i, rdv :: Takes(s, s', t, i, rdv))
    || (exists i :: Gives(s, s', t, i))
    || LooksAtClock(s, s', t)
    || (exists wv :: GetsVersion(s, s', t, wv))
    || Validates(s, s', t)
    || Commits(s, s', t)
    || WritesBack(s, s', t)
    || Ends(s, s', t)
  }

  /** Moving on without touching anything shared. */
  lemma QuietMove(s: State, s': State, t: Tid, pc: Pc)
    requires |s.locks| == TABSZ && t < |s.threads|
    requires s' == Goto(s, t, pc)
    requires !pc.CasClock? && !pc.Validate? && !Committing(pc) && !Committing(s.threads[t].pc)
    ensures Quiet(s, s', t)
  {
  }

  /** Moving on while no lock is held. */
  lemma QuietFree(s: State, s': State, t: Tid, T': Thread)
    requires |s.locks| == TABSZ && t < |s.threads|
    requires s' == Local(s, t, T') && SameTx(s.threads[t], T')
    requires s.threads[t].held == T'.held == map[] && !s.threads[t].pc.WriteBack?
    requires !T'.pc.CasClock? && !T'.pc.Validate? && !T'.pc.WriteBack?
    ensures Quiet(s, s', t)
  {
  }

  lemma EffectOfLoad(s: State, s': State, t: Tid)
    requires Structure(s) && t < |s.threads|
    requires LoadFirst(s, s', t) || LoadMemory(s, s', t) || LoadSecond(s, s', t) || Restart(s, s', t)
    ensures Quiet(s, s', t) || exists a, rdv, v :: Reads(s, s', t, a, rdv, v)
  {
    var T := s.threads[t];
    assert ThreadOk(s.clock, s.locks, t, T);
    if T.pc.LoadRecheck? && s'.threads[t].pc == Active {
      assert Reads(s, s', t, T.pc.a, T.pc.rdv, T.pc.v);
    } else {
      QuietMove(s, s', t, s'.threads[t].pc);
    }
  }

  lemma EffectOfStore(s: State, s': State, t: Tid)
    requires Structure(s) && t < |s.threads|
    requires StoreFirst(s, s', t) || StoreMemory(s, s', t)
    ensures Quiet(s, s', t)
  {
    assert ThreadOk(s.clock, s.locks, t, s.threads[t]);
    QuietFree(s, s', t, s'.threads[t]);
  }

  lemma EffectOfStoreSecond(s: State, s': State, t: Tid)
    requires Structure(s) && t < |s.threads|
    requires StoreSecond(s, s', t)
    ensures Quiet(s, s', t) || exists a, rdv, v :: Reads(s, s', t, a, rdv, v)
  {
    var T := s.threads[t];
    assert ThreadOk(s.clock, s.locks, t, T);
    if s.locks[PsLock(T.pc.a)] == Version(T.pc.rdv) && s'.threads[t].pc == Active {
      assert Reads(s, s', t, T.pc.a, T.pc.rdv, T.pc.x);
    } else {
      QuietFree(s, s', t, s'.threads[t]);
    }
  }

  lemma EffectOfBegin(s: State, s': State, t: Tid, a: Addr, x: Val)
    requires Structure(s) && t < |s.threads|
    requires Begin(s, s', t) || LoadBegin(s, s', t, a) || StoreBegin(s, s', t, a, x)
    ensures Quiet(s, s', t) || Begins(s, s', t)
  {
    assert ThreadOk(s.clock, s.locks, t, s.threads[t]);
    if s.threads[t].pc == Idle {
      assert Begins(s, s', t);
    } else {
      QuietFree(s, s', t, s'.threads[t]);
    }
  }

  lemma EffectOfCommitBegin(s: State, s': State, t: Tid)
    requires Structure(s) && t < |s.threads|
    requires CommitBegin(s, s', t)
    ensures Quiet(s, s', t) || Ends(s, s', t)
  {
    assert ThreadOk(s.clock, s.locks, t, s.threads[t]);
    if |s.threads[t].wrSet.entries| == 0 {
      assert Ends(s, s', t);
    } else {
      QuietFree(s, s', t, s'.threads[t]);
    }
  }

  lemma EffectOfLook(s: State, s': State, t: Tid)
    requires |s.locks| == TABSZ && t < |s.threads|
    requires AcquireLook(s, s', t) || AcquireWLook(s, s', t)
    ensures Quiet(s, s', t)
  {
    QuietMove(s, s', t, s'.threads[t].pc);
  }

  lemma EffectOfTake(s: State, s': State, t: Tid)
    requires |s.locks| == TABSZ && t < |s.threads|
    requires AcquireRwCas(s, s', t) || AcquireWTake(s, s', t)
    ensures Quiet(s, s', t) || exists i, rdv :: Takes(s, s', t, i, rdv)
  {
    var T := s.threads[t];
    if s.locks[LockOf(T, T.pc.i)] == Version(T.pc.rdv) {
      assert Takes(s, s', t, T.pc.i, T.pc.rdv);
    } else {
      QuietMove(s, s', t, s'.threads[t].pc);
    }
  }

  lemma EffectOfClock(s: State, s': State, t: Tid)
    requires Structure(s) && t < |s.threads|
    requires ClockLook(s, s', t) || ClockCas(s, s', t)
    ensures LooksAtClock(s, s', t) || exists wv :: GetsVersion(s, s', t, wv)
  {
    assert ThreadOk(s.clock, s.locks, t, s.threads[t]);
    if s.threads[t].pc == ReadClock {
      assert LooksAtClock(s, s', t);
    } else {
      assert GetsVersion(s, s', t, s'.threads[t].pc.wv);
    }
  }

  lemma EffectOfValidate(s: State, s': State, t: Tid)
    requires |s.locks| == TABSZ && t < |s.threads|
    requires ValidateEntry(s, s', t) || Decide(s, s', t)
    ensures Validates(s, s', t) || Commits(s, s', t) || Quiet(s, s', t)
  {
    var T := s.threads[t];
    if T.pc.i < |T.rdSet| {
      assert Validates(s, s', t);
    } else if T.pc.ok {
      assert Commits(s, s', t);
    } else {
      QuietMove(s, s', t, Aborting(0));
    }
  }

  lemma EffectOfWriteBack(s: State, s': State, t: Tid)
    requires |s.locks| == TABSZ && t < |s.threads|
    requires WriteBackEntry(s, s', t)
    ensures WritesBack(s, s', t) || Quiet(s, s', t)
  {
  }

  lemma EffectOfDrop(s: State, s': State, t: Tid)
    requires Structure(s) && t < |s.threads|
    requires DropEntry(s, s', t)
    ensures Quiet(s, s', t) || exists i :: Gives(s, s', t, i)
  {
    var T := s.threads[t];
    assert ThreadOk(s.clock, s.locks, t, T);
    if T.pc.i < |T.wrSet.entries| && T.pc.i in T.held {
      assert Gives(s, s', t, T.pc.i);
    } else if T.pc.i < |T.wrSet.entries| {
      assert s' == Goto(s, t, Release(T.pc.wv, T.pc.i + 1));
    } else {
      assert forall j :: j in T.held ==> false;
      QuietFree(s, s', t, s'.threads[t]);
    }
  }

  lemma EffectOfRestore(s: State, s': State, t: Tid)
    requires Structure(s) && t < |s.threads|
    requires RestoreEntry(s, s', t)
    ensures Quiet(s, s', t) || Ends(s, s', t) || exists i :: Gives(s, s', t, i)
  {
    var T := s.threads[t];
    assert ThreadOk(s.clock, s.locks, t, T);
    if !T.holdsLocks || T.pc.i >= |T.wrSet.entries| {
      assert forall j :: j in T.held ==> false;
      assert Ends(s, s', t);
    } else if T.pc.i in T.held {
      assert Gives(s, s', t, T.pc.i);
    } else {
      QuietMove(s, s', t, Aborting(T.pc.i + 1));
    }
  }

  /** Every step is of one of the kinds. */
  lemma EffectOfStep(s: State, s': State, t: Tid, step: Step)
    requires Structure(s) && Next(s, s', t, step)
    ensures Effect(s, s', t)
  {
    match step
    case BeginStep => EffectOfBegin(s, s', t, 0, 0);
    case LoadBeginStep(a) => EffectOfBegin(s, s', t, a, 0);
    case StoreBeginStep(a, x) => EffectOfBegin(s, s', t, a, x);
    case LoadFirstStep | LoadMemoryStep | LoadSecondStep | RestartStep => EffectOfLoad(s, s', t);
    case StoreFirstStep | StoreMemoryStep => EffectOfStore(s, s', t);
    case StoreSecondStep => EffectOfStoreSecond(s, s', t);
    case CommitBeginStep => EffectOfCommitBegin(s, s', t);
    case AcquireLookStep | AcquireWLookStep => EffectOfLook(s, s', t);
    case AcquireRwCasStep | AcquireWTakeStep => EffectOfTake(s, s', t);
    case ClockLookStep | ClockCasStep => EffectOfClock(s, s', t);
    case ValidateEntryStep | DecideStep => EffectOfValidate(s, s', t);
    case WriteBackEntryStep => EffectOfWriteBack(s, s', t);
    case DropEntryStep => EffectOfDrop(s, s', t);
    case RestoreEntryStep => EffectOfRestore(s, s', t);
  }
}
