/** Who holds which lock, and how the clock bounds every version in sight.  This part of the
    invariant speaks of the present state only; it contains the assertions that the code makes
    about lock words when it restores and drops them. */
module Tl2Structure {
  import opened Tl2Log
  import opened Tl2Machine

  /** Entry `j` of thread `t`'s write-set lies in a stripe that `t` has locked. */
  ghost predicate Covered(locks: seq<LockWord>, t: Tid, es: seq<Pair>, j: nat)
    requires j < |es|
  {
    && |locks| == TABSZ
    && locks[PsLock(es[j].addr)].Locked?
    && locks[PsLock(es[j].addr)].owner == t
  }

  ghost predicate CoveredTo(locks: seq<LockWord>, t: Tid, es: seq<Pair>, n: nat) {
    && n <= |es|
    && forall j: nat :: j < n ==> Covered(locks, t, es, j)
  }

  ghost predicate HeldBelow(held: map<nat, nat>, bound: nat) {
    forall j :: j in held ==> held[j] < bound
  }

  ghost predicate HeldFrom(held: map<nat, nat>, i: nat) {
    forall j :: j in held ==> i <= j
  }

  /** What the position of a thread says about its locks and versions. */
  ghost predicate PcOk(clock: nat, locks: seq<LockWord>, t: Tid, T: Thread) {
    var es := T.wrSet.entries;
    match T.pc
    case Acquire(i) => T.holdsLocks && CoveredTo(locks, t, es, i)
    case AcquireRw(i, rdv) => T.holdsLocks && CoveredTo(locks, t, es, i) && i < |es| && rdv <= T.rv
    case AcquireW(i, _) => T.holdsLocks && CoveredTo(locks, t, es, i) && i < |es| && PsLock(es[i].addr) !in T.rdSet
    case AcquireWCas(i, _, _) => T.holdsLocks && CoveredTo(locks, t, es, i) && i < |es| &&
        PsLock(es[i].addr) !in T.rdSet
    case ReadClock => T.holdsLocks && CoveredTo(locks, t, es, |es|)
    case CasClock(gv) => T.holdsLocks && CoveredTo(locks, t, es, |es|) && T.rv <= gv <= clock &&
        HeldBelow(T.held, gv + 1)
    case Validate(wv, i, _) =>
      T.holdsLocks && CoveredTo(locks, t, es, |es|) && T.rv < wv <= clock && HeldBelow(T.held, wv) && i <= |T.rdSet|
    case WriteBack(wv, i) => CoveredTo(locks, t, es, |es|) && wv <= clock && HeldBelow(T.held, wv) && i <= |es|
    case Release(wv, i) => wv <= clock && HeldBelow(T.held, wv) && HeldFrom(T.held, i)
    case Aborting(i) => HeldFrom(T.held, i) && (T.holdsLocks || T.held == map[])
    case Idle => T.held == map[]
    case StoreLock(_, _) | StoreValue(_, _, _) => T.held == map[] && !T.holdsLocks && !T.isRO
    case StoreRecheck(_, _, rdv) => T.held == map[] && !T.holdsLocks && !T.isRO && rdv <= T.rv
    case _ => T.held == map[] && !T.holdsLocks
  }

  /** The entries that hold their lock are the ones the lock table says, and a stripe that was
      also read had a version the transaction could read. */
  ghost predicate HeldOk(locks: seq<LockWord>, t: Tid, es: seq<Pair>, rdSet: seq<Stripe>, rv: nat,
                         held: map<nat, nat>) {
    && |locks| == TABSZ
    && forall j {:trigger j in held} :: j in held ==>
         && j < |es|
         && locks[PsLock(es[j].addr)] == Locked(t, j)
         && (PsLock(es[j].addr) in rdSet ==> held[j] <= rv)
  }

  ghost predicate ReadSetOk(rdSet: seq<Stripe>, isRO: bool, seen: map<Addr, Val>) {
    && (forall k :: k in rdSet ==> k < TABSZ)
    && (!isRO ==> forall a :: a in seen ==> PsLock(a) in rdSet)
  }

  ghost predicate ThreadOk(clock: nat, locks: seq<LockWord>, t: Tid, T: Thread) {
    && Filtered(T.wrSet)
    && T.rv <= clock
    && HeldOk(locks, t, T.wrSet.entries, T.rdSet, T.rv, T.held)
    && HeldBelow(T.held, clock + 1)
    && ReadSetOk(T.rdSet, T.isRO, T.seen)
    && (T.isRO ==> T.wrSet.entries == [] && !T.holdsLocks)
    && PcOk(clock, locks, t, T)
  }

  ghost predicate LockOk(clock: nat, threads: seq<Thread>, k: Stripe, w: LockWord) {
    match w
    case Version(n) => n <= clock
    case Locked(o, i) =>
      && o < |threads|
      && i in threads[o].held
      && i < |threads[o].wrSet.entries|
      && LockOf(threads[o], i) == k
  }

  ghost predicate Structure(s: State) {
    && |s.locks| == TABSZ
    && (forall t :: 0 <= t < |s.threads| ==> ThreadOk(s.clock, s.locks, t, s.threads[t]))
    && (forall k :: 0 <= k < TABSZ ==> LockOk(s.clock, s.threads, k, s.locks[k]))
  }

  lemma StructureInit(s: State)
    requires Init(s)
    ensures Structure(s)
  {
  }

  /** A step that leaves the lock table alone is judged by the thread that took it. */
  lemma StructureFrame(s: State, s': State, t: Tid)
    requires Structure(s) && t < |s.threads|
    requires s'.locks == s.locks && s.clock <= s'.clock
    requires |s'.threads| == |s.threads|
    requires forall o :: 0 <= o < |s.threads| && o != t ==> s'.threads[o] == s.threads[o]
    requires s'.threads[t].held == s.threads[t].held
    requires s'.threads[t].held == map[] || s'.threads[t].wrSet == s.threads[t].wrSet
    requires ThreadOk(s'.clock, s'.locks, t, s'.threads[t])
    ensures Structure(s')
  {
    forall k | 0 <= k < TABSZ ensures LockOk(s'.clock, s'.threads, k, s'.locks[k]) {
      assert LockOk(s.clock, s.threads, k, s.locks[k]);
    }
    forall o | 0 <= o < |s'.threads| ensures ThreadOk(s'.clock, s'.locks, o, s'.threads[o]) {
      assert o != t ==> ThreadOk(s.clock, s.locks, o, s.threads[o]);
    }
  }

  /** A thread does not notice the change of a lock word that is not its own. */
  lemma OthersKeep(clock: nat, locks: seq<LockWord>, o: Tid, T: Thread, k: Stripe, w: LockWord)
    requires ThreadOk(clock, locks, o, T)
    requires k < TABSZ
    requires locks[k].Locked? ==> locks[k].owner != o
    ensures ThreadOk(clock, locks[k := w], o, T)
  {
    var locks' := locks[k := w];
    var es := T.wrSet.entries;
    assert HeldOk(locks', o, es, T.rdSet, T.rv, T.held);
    forall n: nat | CoveredTo(locks, o, es, n) ensures CoveredTo(locks', o, es, n) {
      forall j: nat | j < n ensures Covered(locks', o, es, j) {
        assert Covered(locks, o, es, j);
      }
    }
  }

  lemma TakerOk(clock: nat, locks: seq<LockWord>, t: Tid, T: Thread, i: nat, rdv: nat)
    requires ThreadOk(clock, locks, t, T)
    requires T.pc.AcquireRw? || T.pc.AcquireWCas?
    requires i == T.pc.i && rdv == T.pc.rdv <= clock
    requires locks[LockOf(T, i)] == Version(rdv)
    ensures ThreadOk(clock, locks[LockOf(T, i) := Locked(t, i)], t, T.(pc := Acquire(i + 1), held := T.held[i := rdv]))
  {
    var K := LockOf(T, i);
    var locks', T' := locks[K := Locked(t, i)], T.(pc := Acquire(i + 1), held := T.held[i := rdv]);
    var es := T.wrSet.entries;
    forall j: nat | j < i + 1 ensures Covered(locks', t, es, j) {
      assert j < i ==> Covered(locks, t, es, j);
    }
    assert HeldOk(locks', t, es, T.rdSet, T.rv, T'.held);
  }

  lemma StructureTake(s: State, s': State, t: Tid, i: nat, rdv: nat)
    requires Structure(s) && t < |s.threads|
    requires s.threads[t].pc.AcquireRw? || s.threads[t].pc.AcquireWCas?
    requires i == s.threads[t].pc.i && rdv == s.threads[t].pc.rdv
    requires i < |s.threads[t].wrSet.entries|
    requires s.locks[LockOf(s.threads[t], i)] == Version(rdv)
    requires s' == Take(s, t, i, rdv)
    ensures Structure(s')
  {
    var T, K := s.threads[t], LockOf(s.threads[t], i);
    assert LockOk(s.clock, s.threads, K, s.locks[K]);
    TakerOk(s.clock, s.locks, t, T, i, rdv);
    forall k | 0 <= k < TABSZ ensures LockOk(s'.clock, s'.threads, k, s'.locks[k]) {
      assert LockOk(s.clock, s.threads, k, s.locks[k]);
    }
    forall o | 0 <= o < |s'.threads| && o != t ensures ThreadOk(s'.clock, s'.locks, o, s'.threads[o]) {
      OthersKeep(s.clock, s.locks, o, s.threads[o], K, Locked(t, i));
    }
  }

  lemma HeldOthers(locks: seq<LockWord>, t: Tid, es: seq<Pair>, rdSet: seq<Stripe>, rv: nat, held: map<nat, nat>,
                   i: nat, n: nat)
    requires HeldOk(locks, t, es, rdSet, rv, held) && i in held
    ensures i < |es| && HeldOk(locks[PsLock(es[i].addr) := Version(n)], t, es, rdSet, rv, held - {i})
  {
  }

  lemma HeldFewer(held: map<nat, nat>, n: nat, i: nat)
    ensures HeldBelow(held, n) ==> HeldBelow(held - {i}, n)
    ensures HeldFrom(held, i) ==> HeldFrom(held - {i}, i + 1)
  {
  }

  lemma GiverOk(clock: nat, locks: seq<LockWord>, t: Tid, T: Thread, i: nat, n: nat, pc: Pc)
    requires ThreadOk(clock, locks, t, T)
    requires T.pc.Release? || T.pc.Aborting?
    requires i == T.pc.i && i in T.held
    requires pc == T.pc.(i := i + 1)
    ensures ThreadOk(clock, locks[LockOf(T, i) := Version(n)], t, T.(pc := pc, held := T.held - {i}))
  {
    HeldOthers(locks, t, T.wrSet.entries, T.rdSet, T.rv, T.held, i, n);
    HeldFewer(T.held, clock + 1, i);
    if T.pc.Release? {
      HeldFewer(T.held, T.pc.wv, i);
    }
  }

  lemma StructureGiveBack(s: State, s': State, t: Tid, i: nat, n: nat, pc: Pc)
    requires Structure(s) && t < |s.threads|
    requires s.threads[t].pc.Release? || s.threads[t].pc.Aborting?
    requires i == s.threads[t].pc.i && i in s.threads[t].held && i < |s.threads[t].wrSet.entries|
    requires pc == s.threads[t].pc.(i := i + 1)
    requires s' == GiveBack(s, t, i, n, pc)
    requires n <= s.clock
    ensures Structure(s')
  {
    var T, K := s.threads[t], LockOf(s.threads[t], i);
    GiverOk(s.clock, s.locks, t, T, i, n, pc);
    assert s.locks[K] == Locked(t, i);
    forall k | 0 <= k < TABSZ ensures LockOk(s'.clock, s'.threads, k, s'.locks[k]) {
      assert LockOk(s.clock, s.threads, k, s.locks[k]);
    }
    forall o | 0 <= o < |s'.threads| && o != t ensures ThreadOk(s'.clock, s'.locks, o, s'.threads[o]) {
      OthersKeep(s.clock, s.locks, o, s.threads[o], K, Version(n));
    }
  }

  /** A thread in the body of its transaction, or about to abort from there, holds nothing. */
  ghost predicate InBody(T: Thread) {
    && T.held == map[]
    && !T.holdsLocks
    && (T.pc == Active || T.pc.LoadLock? || T.pc.LoadValue? || T.pc.LoadRecheck? || T.pc == Aborting(0)
        || ((T.pc.StoreLock? || T.pc.StoreValue?) && !T.isRO)
        || (T.pc.StoreRecheck? && !T.isRO && T.pc.rdv <= T.rv))
  }

  lemma StructureGoto(s: State, s': State, t: Tid, pc: Pc)
    requires Structure(s) && t < |s.threads| && InBody(s.threads[t])
    requires s' == Goto(s, t, pc) && InBody(s'.threads[t])
    ensures Structure(s')
  {
    assert ThreadOk(s.clock, s.locks, t, s.threads[t]);
    StructureFrame(s, s', t);
  }

  lemma StructureBegin(s: State, s': State, t: Tid)
    requires Structure(s) && t < |s.threads| && Begin(s, s', t)
    ensures Structure(s')
  {
    assert ThreadOk(s.clock, s.locks, t, s.threads[t]);
    StructureFrame(s, s', t);
  }

  lemma StructureTracked(s: State, s': State, t: Tid, a: Addr, v: Val, op: Op)
    requires Structure(s) && t < |s.threads| && InBody(s.threads[t])
    requires s' == Local(s, t, Tracked(s.threads[t], a, v, op))
    ensures Structure(s')
  {
    assert ThreadOk(s.clock, s.locks, t, s.threads[t]);
    StructureFrame(s, s', t);
  }

  lemma StructureWritten(s: State, s': State, t: Tid, w: WriteSet, ops: seq<Op>)
    requires Structure(s) && t < |s.threads| && InBody(s.threads[t])
    requires s' == Local(s, t, s.threads[t].(pc := Active, wrSet := w, ops := ops))
    requires Filtered(w) && (s.threads[t].isRO ==> w.entries == [])
    ensures Structure(s')
  {
    assert ThreadOk(s.clock, s.locks, t, s.threads[t]);
    StructureFrame(s, s', t);
  }

  lemma StructureLoad(s: State, s': State, t: Tid, step: Step)
    requires Structure(s) && Next(s, s', t, step)
    requires step.LoadBeginStep? || step.LoadFirstStep? || step.LoadMemoryStep? || step.LoadSecondStep?
          || step.StoreBeginStep? || step.StoreFirstStep? || step.RestartStep?
    ensures Structure(s')
  {
    var T, T' := s.threads[t], s'.threads[t];
    assert ThreadOk(s.clock, s.locks, t, T);
    if step.LoadBeginStep? && T'.pc == Active {
      StructureWritten(s, s', t, T.wrSet, T'.ops);
    } else if step.LoadSecondStep? && T'.pc == Active {
      StructureTracked(s, s', t, T.pc.a, T.pc.v, Load(T.pc.a, T.pc.v));
    } else {
      StructureGoto(s, s', t, T'.pc);
    }
  }

  lemma StructureStore(s: State, s': State, t: Tid, step: Step)
    requires Structure(s) && Next(s, s', t, step)
    requires step.StoreMemoryStep? || step.StoreSecondStep?
    ensures Structure(s')
  {
    var T, T' := s.threads[t], s'.threads[t];
    assert ThreadOk(s.clock, s.locks, t, T);
    var a, x := T.pc.a, T.pc.x;
    if s' == Local(s, t, Recorded(T, a, x)) {
      RecordKeepsFilter(T.wrSet, a, x);
      StructureWritten(s, s', t, Record(T.wrSet, a, x), T'.ops);
    } else if step.StoreMemoryStep? && T'.pc == Active {
      StructureWritten(s, s', t, T'.wrSet, T'.ops);
    } else if step.StoreSecondStep? && T'.pc == Active {
      StructureTracked(s, s', t, a, x, Store(a, x));
    } else {
      StructureGoto(s, s', t, T'.pc);
    }
  }

  lemma StructureCommitBegin(s: State, s': State, t: Tid)
    requires Structure(s) && t < |s.threads| && CommitBegin(s, s', t)
    ensures Structure(s')
  {
    assert ThreadOk(s.clock, s.locks, t, s.threads[t]);
    StructureFrame(s, s', t);
  }

  /** Moving on with the locks as they are: only the new position has to be right. */
  lemma StructureMove(s: State, s': State, t: Tid, pc: Pc)
    requires Structure(s) && t < |s.threads|
    requires s'.threads == s.threads[t := s.threads[t].(pc := pc)]
    requires s'.locks == s.locks && s.clock <= s'.clock
    requires PcOk(s'.clock, s.locks, t, s.threads[t].(pc := pc))
    ensures Structure(s')
  {
    assert ThreadOk(s.clock, s.locks, t, s.threads[t]);
    StructureFrame(s, s', t);
  }

  lemma AcquireLookOk(clock: nat, locks: seq<LockWord>, t: Tid, T: Thread)
    requires ThreadOk(clock, locks, t, T) && T.pc.Acquire?
    ensures PcOk(clock, locks, t, T.(pc := Aborting(0)))
    ensures T.pc.i == |T.wrSet.entries| ==> PcOk(clock, locks, t, T.(pc := ReadClock))
    ensures T.pc.i < |T.wrSet.entries| ==>
              var k := LockOf(T, T.pc.i);
              && (locks[k].Locked? && locks[k].owner == t ==> PcOk(clock, locks, t, T.(pc := Acquire(T.pc.i + 1))))
              && (locks[k].Version? && locks[k].n <= T.rv ==>
                  PcOk(clock, locks, t, T.(pc := AcquireRw(T.pc.i, locks[k].n))))
              && (k !in T.rdSet ==> PcOk(clock, locks, t, T.(pc := AcquireW(T.pc.i, SPIN_BUDGET))))
  {
  }

  lemma StructureAcquireLook(s: State, s': State, t: Tid)
    requires Structure(s) && t < |s.threads| && AcquireLook(s, s', t)
    ensures Structure(s')
  {
    var T := s.threads[t];
    AcquireLookOk(s.clock, s.locks, t, T);
    StructureMove(s, s', t, s'.threads[t].pc);
  }

  lemma StructureAcquireWLook(s: State, s': State, t: Tid)
    requires Structure(s) && t < |s.threads| && AcquireWLook(s, s', t)
    ensures Structure(s')
  {
    assert ThreadOk(s.clock, s.locks, t, s.threads[t]);
    StructureFrame(s, s', t);
  }

  lemma ClockOk(clock: nat, locks: seq<LockWord>, t: Tid, T: Thread)
    requires ThreadOk(clock, locks, t, T)
    ensures T.pc == ReadClock ==> PcOk(clock, locks, t, T.(pc := CasClock(clock)))
    ensures T.pc == CasClock(clock) ==> PcOk(clock + 2, locks, t, T.(pc := Validate(clock + 2, 0, true)))
    ensures T.pc.CasClock? && T.pc.gv != clock ==> PcOk(clock, locks, t, T.(pc := Validate(clock, 0, true)))
  {
  }

  lemma StructureClock(s: State, s': State, t: Tid)
    requires Structure(s) && t < |s.threads| && (ClockLook(s, s', t) || ClockCas(s, s', t))
    ensures Structure(s')
  {
    var T := s.threads[t];
    ClockOk(s.clock, s.locks, t, T);
    StructureMove(s, s', t, s'.threads[t].pc);
  }

  lemma ValidateOk(clock: nat, locks: seq<LockWord>, t: Tid, T: Thread, ok: bool)
    requires ThreadOk(clock, locks, t, T) && T.pc.Validate?
    ensures T.pc.i < |T.rdSet| ==> PcOk(clock, locks, t, T.(pc := Validate(T.pc.wv, T.pc.i + 1, ok)))
    ensures PcOk(clock, locks, t, T.(pc := WriteBack(T.pc.wv, 0)))
    ensures PcOk(clock, locks, t, T.(pc := Aborting(0)))
  {
  }

  lemma StructureValidate(s: State, s': State, t: Tid)
    requires Structure(s) && t < |s.threads| && (ValidateEntry(s, s', t) || Decide(s, s', t))
    ensures Structure(s')
  {
    var T := s.threads[t];
    if s'.threads[t].pc.Validate? {
      ValidateOk(s.clock, s.locks, t, T, s'.threads[t].pc.ok);
    } else {
      ValidateOk(s.clock, s.locks, t, T, true);
    }
    StructureMove(s, s', t, s'.threads[t].pc);
  }

  lemma StructureWriteBack(s: State, s': State, t: Tid)
    requires Structure(s) && t < |s.threads| && WriteBackEntry(s, s', t)
    ensures Structure(s')
  {
    assert ThreadOk(s.clock, s.locks, t, s.threads[t]);
    StructureFrame(s, s', t);
  }

  lemma StructureAcquireTake(s: State, s': State, t: Tid)
    requires Structure(s) && t < |s.threads| && (AcquireRwCas(s, s', t) || AcquireWTake(s, s', t))
    ensures Structure(s')
  {
    var T := s.threads[t];
    assert ThreadOk(s.clock, s.locks, t, T);
    if s.locks[LockOf(T, T.pc.i)] == Version(T.pc.rdv) {
      StructureTake(s, s', t, T.pc.i, T.pc.rdv);
    } else {
      StructureFrame(s, s', t);
    }
  }

  lemma ReleaseOk(clock: nat, locks: seq<LockWord>, t: Tid, T: Thread)
    requires ThreadOk(clock, locks, t, T) && T.pc.Release?
    ensures T.pc.i >= |T.wrSet.entries| ==> PcOk(clock, locks, t, T.(pc := Idle))
    ensures T.pc.i !in T.held ==> PcOk(clock, locks, t, T.(pc := Release(T.pc.wv, T.pc.i + 1)))
  {
    HeldEnds(locks, t, T.wrSet.entries, T.rdSet, T.rv, T.held, T.pc.i);
  }

  lemma HeldEnds(locks: seq<LockWord>, t: Tid, es: seq<Pair>, rdSet: seq<Stripe>, rv: nat, held: map<nat, nat>, i: nat)
    requires HeldOk(locks, t, es, rdSet, rv, held) && HeldFrom(held, i)
    ensures i >= |es| ==> held == map[]
    ensures i !in held ==> HeldFrom(held, i + 1)
  {
    if i >= |es| {
      forall j ensures j !in held {
      }
    }
  }

  lemma StructureDrop(s: State, s': State, t: Tid)
    requires Structure(s) && t < |s.threads| && DropEntry(s, s', t)
    ensures Structure(s')
  {
    var T := s.threads[t];
    assert ThreadOk(s.clock, s.locks, t, T);
    if T.pc.i < |T.wrSet.entries| && T.pc.i in T.held {
      StructureGiveBack(s, s', t, T.pc.i, T.pc.wv, s'.threads[t].pc);
    } else {
      StructureDropNone(s, s', t);
    }
  }

  lemma StructureDropNone(s: State, s': State, t: Tid)
    requires Structure(s) && t < |s.threads| && DropEntry(s, s', t)
    requires var T := s.threads[t]; !(T.pc.i < |T.wrSet.entries| && T.pc.i in T.held)
    ensures Structure(s')
  {
    var T := s.threads[t];
    assert ThreadOk(s.clock, s.locks, t, T);
    ReleaseOk(s.clock, s.locks, t, T);
    StructureMove(s, s', t, s'.threads[t].pc);
  }

  lemma StructureRestore(s: State, s': State, t: Tid)
    requires Structure(s) && t < |s.threads| && RestoreEntry(s, s', t)
    ensures Structure(s')
  {
    var T := s.threads[t];
    assert ThreadOk(s.clock, s.locks, t, T);
    if T.holdsLocks && T.pc.i < |T.wrSet.entries| && T.pc.i in T.held {
      StructureGiveBack(s, s', t, T.pc.i, T.held[T.pc.i], s'.threads[t].pc);
    } else {
      RestoredOk(s, s', t);
      StructureFrame(s, s', t);
    }
  }

  lemma RestoredOk(s: State, s': State, t: Tid)
    requires Structure(s) && t < |s.threads| && RestoreEntry(s, s', t)
    requires var T := s.threads[t]; !(T.holdsLocks && T.pc.i < |T.wrSet.entries| && T.pc.i in T.held)
    ensures s'.locks == s.locks && s'.clock == s.clock && t < |s'.threads| && s'.threads[t].held == s.threads[t].held
    ensures s'.threads[t].held == map[] || s'.threads[t].wrSet == s.threads[t].wrSet
    ensures ThreadOk(s'.clock, s'.locks, t, s'.threads[t])
  {
    assert ThreadOk(s.clock, s.locks, t, s.threads[t]);
  }

  lemma StructureStep(s: State, s': State, t: Tid, step: Step)
    requires Structure(s) && Next(s, s', t, step)
    ensures Structure(s')
  {
    match step
    case BeginStep => StructureBegin(s, s', t);
    case StoreMemoryStep | StoreSecondStep => StructureStore(s, s', t, step);
    case CommitBeginStep => StructureCommitBegin(s, s', t);
    case AcquireLookStep => StructureAcquireLook(s, s', t);
    case AcquireWLookStep => StructureAcquireWLook(s, s', t);
    case AcquireRwCasStep | AcquireWTakeStep => StructureAcquireTake(s, s', t);
    case ClockLookStep | ClockCasStep => StructureClock(s, s', t);
    case ValidateEntryStep | DecideStep => StructureValidate(s, s', t);
    case WriteBackEntryStep => StructureWriteBack(s, s', t);
    case DropEntryStep => StructureDrop(s, s', t);
    case RestoreEntryStep => StructureRestore(s, s', t);
    case _ => StructureLoad(s, s', t, step);
  }
}
