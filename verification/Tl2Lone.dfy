/** A transaction that nobody disturbs commits: from a moment at which no stripe is taken, and while no other thread
    takes a step, it gives up only if its program says so. */
module Tl2Lone {
  import opened Options
  import opened Tl2Log
  import opened Tl2Machine
  import opened Tl2Calls
  import opened Tl2Structure
  import opened Tl2Opacity

  predicate Free(locks: seq<LockWord>) {
    forall k :: 0 <= k < |locks| ==> locks[k].Version?
  }

  /** What a lone thread with read version `rv` can rely on: every stripe is old enough or its own, and so is what it
      displaced. */
  ghost predicate Undisturbed(locks: seq<LockWord>, t: Tid, T: Thread) {
    && |locks| == TABSZ && (forall k :: 0 <= k < TABSZ ==> Coherent(locks[k], t, T.rv))
    && (forall e :: e in T.held ==> T.held[e] <= T.rv)
    && (!T.holdsLocks ==> Free(locks))
  }

  /** The versions that the thread has read still stand. */
  predicate Stands(locks: seq<LockWord>, T: Thread)
    requires |locks| == TABSZ
  {
    match T.pc
    case Active => !T.holdsLocks
    case LoadLock(_) => !T.holdsLocks
    case LoadValue(a, rdv) => !T.holdsLocks && locks[PsLock(a)] == Version(rdv)
    case LoadRecheck(a, rdv, _) => !T.holdsLocks && locks[PsLock(a)] == Version(rdv)
    case StoreLock(_, _) => !T.holdsLocks
    case StoreValue(a, _, cv) => !T.holdsLocks && locks[PsLock(a)] == cv
    case StoreRecheck(a, _, rdv) => !T.holdsLocks && locks[PsLock(a)] == Version(rdv)
    case Acquire(_) => T.holdsLocks
    case AcquireRw(i, rdv) => TakesNext(locks, T, i) && locks[LockOf(T, i)] == Version(rdv)
    case AcquireW(i, _) => TakesNext(locks, T, i)
    case AcquireWCas(i, _, rdv) => TakesNext(locks, T, i) && locks[LockOf(T, i)] == Version(rdv)
    case Validate(_, _, ok) => ok
    case Aborting(_) => false
    case _ => true
  }

  /** The stripe of entry `i` is free and old enough. */
  predicate TakesNext(locks: seq<LockWord>, T: Thread, i: nat)
    requires |locks| == TABSZ
  {
    && T.holdsLocks && i < |T.wrSet.entries|
    && locks[LockOf(T, i)].Version? && locks[LockOf(T, i)].n <= T.rv
  }

  /** The thread runs its transaction and has not been disturbed. */
  ghost predicate Lone(s: State, t: Tid) {
    && t < |s.threads| && Running(s.threads[t]) && Undisturbed(s.locks, t, s.threads[t])
    && Stands(s.locks, s.threads[t])
  }

  /** It goes on so, or it is over, and recorded as one that did not abort. */
  ghost predicate LoneOrDone(s: State, s': State, t: Tid) {
    Lone(s', t) ||
    (Records(s, s', t) && !s'.done[|s.done|].outcome.Aborted?)
  }

  lemma LoneLoad(s: State, s': State, t: Tid, a: Addr)
    requires Lone(s, t) && (LoadBegin(s, s', t, a) || LoadFirst(s, s', t) || LoadMemory(s, s', t))
    ensures Lone(s', t)
  {
  }

  lemma LoneLoadSecond(s: State, s': State, t: Tid)
    requires Lone(s, t) && LoadSecond(s, s', t)
    ensures Lone(s', t)
  {
    var pc := s.threads[t].pc;
    assert Coherent(s.locks[PsLock(pc.a)], t, s.threads[t].rv);
  }

  lemma LoneStore(s: State, s': State, t: Tid, a: Addr, x: Val)
    requires Lone(s, t) && ((StoreBegin(s, s', t, a, x) && !s.threads[t].isRO) || StoreFirst(s, s', t))
    ensures Lone(s', t)
  {
  }

  lemma LoneStoreMemory(s: State, s': State, t: Tid)
    requires Lone(s, t) && StoreMemory(s, s', t)
    ensures Lone(s', t)
  {
  }

  lemma LoneStoreSecond(s: State, s': State, t: Tid)
    requires Lone(s, t) && StoreSecond(s, s', t)
    ensures Lone(s', t)
  {
  }

  lemma LoneCommitBegin(s: State, s': State, t: Tid)
    requires Lone(s, t) && CommitBegin(s, s', t)
    ensures LoneOrDone(s, s', t)
  {
  }

  lemma LoneLook(s: State, s': State, t: Tid)
    requires Lone(s, t) && AcquireLook(s, s', t)
    ensures Lone(s', t)
  {
    var T := s.threads[t];
    if T.pc.i < |T.wrSet.entries| {
      assert Coherent(s.locks[LockOf(T, T.pc.i)], t, T.rv);
    }
  }

  lemma LoneTake(s: State, s': State, t: Tid)
    requires Lone(s, t) && (AcquireRwCas(s, s', t) || AcquireWTake(s, s', t))
    ensures Lone(s', t)
  {
  }

  lemma LoneSpin(s: State, s': State, t: Tid)
    requires Lone(s, t) && AcquireWLook(s, s', t)
    ensures Lone(s', t)
  {
    var T := s.threads[t];
    assert Coherent(s.locks[LockOf(T, T.pc.i)], t, T.rv);
  }

  lemma LoneClockLook(s: State, s': State, t: Tid)
    requires Lone(s, t) && ClockLook(s, s', t)
    ensures Lone(s', t)
  {
  }

  lemma LoneClockCas(s: State, s': State, t: Tid)
    requires Lone(s, t) && ClockCas(s, s', t)
    ensures Lone(s', t)
  {
  }

  lemma LoneValidate(s: State, s': State, t: Tid)
    requires Lone(s, t) && ValidateEntry(s, s', t)
    ensures Lone(s', t)
  {
    var T := s.threads[t];
    assert Coherent(s.locks[T.rdSet[T.pc.i]], t, T.rv);
  }

  lemma LoneDecide(s: State, s': State, t: Tid)
    requires Lone(s, t) && Decide(s, s', t)
    ensures LoneOrDone(s, s', t)
  {
  }

  /** The program gives the transaction up: it says so, or it stores in a read-only one. */
  predicate GivesUp(s: State, t: Tid, step: Step) {
    step == RestartStep || (step.StoreBeginStep? && t < |s.threads| && s.threads[t].isRO)
  }

  lemma LoneStep(s: State, s': State, t: Tid, step: Step)
    requires Lone(s, t) && Next(s, s', t, step) && !GivesUp(s, t, step)
    ensures LoneOrDone(s, s', t)
  {
    match step
    case LoadBeginStep(a) => LoneLoad(s, s', t, a);
    case LoadFirstStep | LoadMemoryStep => LoneLoad(s, s', t, 0);
    case LoadSecondStep => LoneLoadSecond(s, s', t);
    case StoreBeginStep(a, x) => LoneStore(s, s', t, a, x);
    case StoreFirstStep => LoneStore(s, s', t, 0, 0);
    case StoreMemoryStep => LoneStoreMemory(s, s', t);
    case StoreSecondStep => LoneStoreSecond(s, s', t);
    case CommitBeginStep => LoneCommitBegin(s, s', t);
    case AcquireLookStep => LoneLook(s, s', t);
    case AcquireRwCasStep | AcquireWTakeStep => LoneTake(s, s', t);
    case AcquireWLookStep => LoneSpin(s, s', t);
    case ClockLookStep => LoneClockLook(s, s', t);
    case ClockCasStep => LoneClockCas(s, s', t);
    case ValidateEntryStep => LoneValidate(s, s', t);
    case DecideStep => LoneDecide(s, s', t);
    case _ =>
  }

  lemma LoneBegin(s: State, s': State, t: Tid)
    requires Structure(s) && Free(s.locks) && Next(s, s', t, BeginStep)
    ensures Lone(s', t)
  {
    forall k | 0 <= k < TABSZ ensures Coherent(s.locks[k], t, s.clock) {
      assert LockOk(s.clock, s.threads, k, s.locks[k]);
    }
  }

  /** From state `b`, in which no stripe is taken, thread `t` alone takes steps: it begins a transaction, and does not
      give it up, nor begin another. */
  ghost predicate RunsAlone(run: seq<State>, moves: seq<Move>, b: nat, i: nat, t: Tid) {
    && MovesOf(run, moves) && b < i < |run| && Free(run[b].locks) && moves[b] == Move(t, BeginStep)
    && forall j :: b < j < i ==> moves[j].t == t && moves[j].step != BeginStep && !GivesUp(run[j], t, moves[j].step)
  }

  /** The transaction was recorded, as one that did not abort, in a step before state `i`. */
  ghost predicate CommittedIn(run: seq<State>, b: nat, i: nat, t: Tid) {
    exists j: nat :: b < j < i < |run| && CommitsIn(run, j, t)
  }

  ghost predicate CommitsIn(run: seq<State>, j: nat, t: Tid) {
    j + 1 < |run| && Records(run[j], run[j + 1], t) && !run[j + 1].done[|run[j].done|].outcome.Aborted?
  }

  lemma BeginsIn(run: seq<State>, moves: seq<Move>, b: nat, t: Tid)
    requires Run(run) && MovesOf(run, moves) && b < |moves| && Free(run[b].locks) && moves[b] == Move(t, BeginStep)
    ensures Lone(run[b + 1], t)
  {
    assert TakenAs(run, b, moves[b]);
    InvRun(run, b);
    LoneBegin(run[b], run[b + 1], t);
  }

  lemma GoesOnIn(run: seq<State>, moves: seq<Move>, j: nat, t: Tid)
    requires MovesOf(run, moves) && j < |moves| && moves[j].t == t && !GivesUp(run[j], t, moves[j].step)
    requires Lone(run[j], t)
    ensures Lone(run[j + 1], t) || CommitsIn(run, j, t)
  {
    assert TakenAs(run, j, moves[j]);
    LoneStep(run[j], run[j + 1], t, moves[j].step);
  }

  lemma StaysOver(run: seq<State>, moves: seq<Move>, j: nat, t: Tid)
    requires MovesOf(run, moves) && j < |moves| && moves[j].t == t && moves[j].step != BeginStep
    requires t < |run[j].threads| && !Running(run[j].threads[t])
    ensures t < |run[j + 1].threads| && !Running(run[j + 1].threads[t])
  {
    assert TakenAs(run, j, moves[j]);
    RecordStep(run[j], run[j + 1], t, moves[j].step);
  }

  /** In every run, from every moment at which no stripe is taken: a transaction during which no other thread takes a
      step, and that its program does not give up, never aborts. */
  lemma {:induction false} LoneCommits(run: seq<State>, moves: seq<Move>, b: nat, i: nat, t: Tid)
    requires Run(run) && RunsAlone(run, moves, b, i, t)
    ensures Lone(run[i], t) || (CommittedIn(run, b, i, t) && t < |run[i].threads| && !Running(run[i].threads[t]))
  {
    if b + 1 == i {
      BeginsIn(run, moves, b, t);
    } else {
      LoneCommits(run, moves, b, i - 1, t);
      if Lone(run[i - 1], t) {
        GoesOnIn(run, moves, i - 1, t);
        assert Lone(run[i], t) || CommitsIn(run, i - 1, t);
      } else {
        var j: nat :| b < j < i - 1 && CommitsIn(run, j, t);
        StaysOver(run, moves, i - 1, t);
      }
    }
  }

  // ---- How long it takes ----

  /** The most steps that a commit under way has still to take, if nobody disturbs it. */
  function Left(T: Thread): int {
    var r, w := |T.rdSet|, |T.wrSet.entries|;
    match T.pc
    case Acquire(i) => r + 2 * w + 6 + 3 * (if i < w then w - i else 0)
    case AcquireW(i, _) => r + 2 * w + 5 + 3 * (w - i)
    case AcquireRw(i, _) => r + 2 * w + 4 + 3 * (w - i)
    case AcquireWCas(i, _, _) => r + 2 * w + 4 + 3 * (w - i)
    case ReadClock => r + 2 * w + 5
    case CasClock(_) => r + 2 * w + 4
    case Validate(_, i, _) => 2 * w + 3 + (if i < r then r - i else 0)
    case WriteBack(_, i) => w + 2 + (if i < w then w - i else 0)
    case Release(_, i) => 1 + (if i < w then w - i else 0)
    case _ => 0
  }

  /** The commit is under way. */
  predicate Commits(pc: Pc) {
    pc.Acquire? || pc.AcquireW? || pc.AcquireRw? || pc.AcquireWCas? || pc.ReadClock? || pc.CasClock? ||
    pc.Validate? || pc.WriteBack? || pc.Release?
  }

  /** In a step from one thread state to the other the commit comes nearer to its end, or there. */
  predicate Nearer(T: Thread, T': Thread) {
    if Commits(T'.pc) then Left(T') < Left(T) else T'.pc == Idle && Left(T) > 0
  }

  lemma LookNearer(s: State, s': State, t: Tid)
    requires Lone(s, t) && (AcquireLook(s, s', t) || AcquireWLook(s, s', t))
    ensures t < |s'.threads| && Nearer(s.threads[t], s'.threads[t])
  {
    var T := s.threads[t];
    if T.pc.i < |T.wrSet.entries| {
      assert Coherent(s.locks[LockOf(T, T.pc.i)], t, T.rv);
    }
  }

  lemma TakeNearer(s: State, s': State, t: Tid)
    requires Lone(s, t) && (AcquireRwCas(s, s', t) || AcquireWTake(s, s', t))
    ensures t < |s'.threads| && Nearer(s.threads[t], s'.threads[t])
  {
  }

  lemma ClockNearer(s: State, s': State, t: Tid)
    requires t < |s.threads| && (ClockLook(s, s', t) || ClockCas(s, s', t))
    ensures t < |s'.threads| && Nearer(s.threads[t], s'.threads[t])
  {
  }

  lemma ValidateNearer(s: State, s': State, t: Tid)
    requires t < |s.threads| && |s.locks| == TABSZ && (ValidateEntry(s, s', t) || Decide(s, s', t))
    requires s.threads[t].pc.Validate? ==> s.threads[t].pc.ok
    ensures t < |s'.threads| && Nearer(s.threads[t], s'.threads[t])
  {
  }

  lemma EndNearer(s: State, s': State, t: Tid)
    requires t < |s.threads| && |s.locks| == TABSZ && (WriteBackEntry(s, s', t) || DropEntry(s, s', t))
    ensures t < |s'.threads| && Nearer(s.threads[t], s'.threads[t])
  {
  }

  lemma NearerIn(run: seq<State>, moves: seq<Move>, j: nat, t: Tid)
    requires MovesOf(run, moves) && j < |moves| && moves[j].t == t && t < |run[j].threads|
    requires Commits(run[j].threads[t].pc) && (Running(run[j].threads[t]) ==> Lone(run[j], t))
    ensures t < |run[j + 1].threads| && Nearer(run[j].threads[t], run[j + 1].threads[t])
  {
    assert TakenAs(run, j, moves[j]);
    match moves[j].step
    case AcquireLookStep | AcquireWLookStep => LookNearer(run[j], run[j + 1], t);
    case AcquireRwCasStep | AcquireWTakeStep => TakeNearer(run[j], run[j + 1], t);
    case ClockLookStep | ClockCasStep => ClockNearer(run[j], run[j + 1], t);
    case ValidateEntryStep | DecideStep => ValidateNearer(run[j], run[j + 1], t);
    case WriteBackEntryStep | DropEntryStep => EndNearer(run[j], run[j + 1], t);
    case _ =>
  }

  lemma CommitStarts(run: seq<State>, moves: seq<Move>, c: nat, t: Tid)
    requires MovesOf(run, moves) && c < |moves| && moves[c] == Move(t, CommitBeginStep)
    ensures t < |run[c + 1].threads| && (Commits(run[c + 1].threads[t].pc) || run[c + 1].threads[t].pc == Idle)
  {
    assert TakenAs(run, c, moves[c]);
  }

  lemma NotIdle(run: seq<State>, moves: seq<Move>, j: nat, t: Tid)
    requires MovesOf(run, moves) && j < |moves| && moves[j].t == t && moves[j].step != BeginStep
    ensures t < |run[j].threads| && run[j].threads[t].pc != Idle
  {
    assert TakenAs(run, j, moves[j]);
  }

  /** And its commit is over after a number of steps that is known from the two logs when it begins. */
  lemma {:induction false} LoneEnds(run: seq<State>, moves: seq<Move>, b: nat, c: nat, i: nat, t: Tid)
    requires Run(run) && RunsAlone(run, moves, b, i, t) && b < c < i && moves[c].step == CommitBeginStep
    ensures t < |run[i].threads| && t < |run[c + 1].threads|
    ensures Commits(run[i].threads[t].pc) || run[i].threads[t].pc == Idle
    ensures i - c - 1 + Left(run[i].threads[t]) <= Left(run[c + 1].threads[t])
  {
    if c + 1 == i {
      CommitStarts(run, moves, c, t);
    } else {
      LoneEnds(run, moves, b, c, i - 1, t);
      NotIdle(run, moves, i - 1, t);
      LoneCommits(run, moves, b, i - 1, t);
      NearerIn(run, moves, i - 1, t);
    }
  }

  // ---- Every thread has a next step ----

  lemma CanLoad(s: State, t: Tid) returns (s': State, step: Step)
    requires t < |s.threads| && |s.locks| == TABSZ
    requires var pc := s.threads[t].pc; pc.Idle? || pc.Active? || pc.LoadLock? || pc.LoadValue? || pc.LoadRecheck?
    ensures Next(s, s', t, step)
  {
    var T := s.threads[t];
    match T.pc
    case Idle => s', step := Local(s, t, Fresh(Active, false, s.clock, |s.done|)), BeginStep;
    case Active => s', step := Goto(s, t, Aborting(0)), RestartStep;
    case LoadLock(a) =>
      step := LoadFirstStep;
      s' := Goto(s, t, match s.locks[PsLock(a)]
                       case Version(n) => LoadValue(a, n)
                       case Locked(_, _) => Aborting(0));
    case LoadValue(a, rdv) => s', step := Goto(s, t, LoadRecheck(a, rdv, Get(s.mem, a))), LoadMemoryStep;
    case LoadRecheck(a, rdv, v) =>
      step := LoadSecondStep;
      s' := if rdv <= T.rv && s.locks[PsLock(a)] == Version(rdv) then Local(s, t, Tracked(T, a, v, Load(a, v)))
            else Goto(s, t, Aborting(0));
  }

  lemma CanStore(s: State, t: Tid) returns (s': State, step: Step)
    requires t < |s.threads| && |s.locks| == TABSZ
    requires var pc := s.threads[t].pc; pc.StoreLock? || pc.StoreValue? || pc.StoreRecheck?
    ensures Next(s, s', t, step)
  {
    var T := s.threads[t];
    match T.pc
    case StoreLock(a, x) => s', step := Goto(s, t, StoreValue(a, x, s.locks[PsLock(a)])), StoreFirstStep;
    case StoreValue(a, x, cv) =>
      step := StoreMemoryStep;
      s' := if Get(s.mem, a) == x && LastStore(T.wrSet.entries, a).Some? then Local(s, t, Replaced(T, a, x))
            else if Get(s.mem, a) == x && cv.Version? && cv.n <= T.rv then Goto(s, t, StoreRecheck(a, x, cv.n))
            else Local(s, t, Tl2Machine.Recorded(T, a, x));
    case StoreRecheck(a, x, rdv) =>
      step := StoreSecondStep;
      s' := if s.locks[PsLock(a)] == Version(rdv) then Local(s, t, Tracked(T, a, x, Store(a, x)))
            else Local(s, t, Tl2Machine.Recorded(T, a, x));
  }

  lemma CanLook(s: State, t: Tid) returns (s': State)
    requires t < |s.threads| && |s.locks| == TABSZ && s.threads[t].pc.Acquire?
    ensures AcquireLook(s, s', t)
  {
    var T := s.threads[t];
    var i := T.pc.i;
    if i >= |T.wrSet.entries| {
      s' := Goto(s, t, ReadClock);
    } else {
      var k := LockOf(T, i);
      var cv := s.locks[k];
      s' := Goto(s, t, if cv.Locked? && cv.owner == t then
                         if k in T.rdSet && cv.entry in T.held && T.held[cv.entry] > T.rv then Aborting(0)
                         else Acquire(i + 1)
                       else if k in T.rdSet then
                         if cv.Version? && cv.n <= T.rv then AcquireRw(i, cv.n) else Aborting(0)
                       else AcquireW(i, SPIN_BUDGET));
    }
  }

  lemma CanTake(s: State, t: Tid) returns (s': State, step: Step)
    requires t < |s.threads| && |s.locks| == TABSZ
    requires var pc := s.threads[t].pc; pc.AcquireRw? || pc.AcquireW? || pc.AcquireWCas?
    requires s.threads[t].pc.i < |s.threads[t].wrSet.entries|
    ensures Next(s, s', t, step)
  {
    var T := s.threads[t];
    var word := s.locks[LockOf(T, T.pc.i)];
    match T.pc
    case AcquireRw(i, rdv) =>
      step := AcquireRwCasStep;
      s' := if word == Version(rdv) then Take(s, t, i, rdv) else Goto(s, t, Aborting(0));
    case AcquireW(i, spins) =>
      step := AcquireWLookStep;
      s' := match word
            case Version(n) => Goto(s, t, AcquireWCas(i, spins, n))
            case Locked(_, _) => SpinOrAbort(s, t, i, spins);
    case AcquireWCas(i, spins, rdv) =>
      step := AcquireWTakeStep;
      s' := if word == Version(rdv) then Take(s, t, i, rdv) else SpinOrAbort(s, t, i, spins);
  }

  lemma CanValidate(s: State, t: Tid) returns (s': State, step: Step)
    requires t < |s.threads| && |s.locks| == TABSZ && forall k :: k in s.threads[t].rdSet ==> k < TABSZ
    requires var pc := s.threads[t].pc; pc.ReadClock? || pc.CasClock? || pc.Validate?
    ensures Next(s, s', t, step)
  {
    var T := s.threads[t];
    match T.pc
    case ReadClock => s', step := Goto(s, t, CasClock(s.clock)), ClockLookStep;
    case CasClock(gv) =>
      step := ClockCasStep;
      s' := if s.clock == gv then Goto(s, t, Validate(gv + 2, 0, true)).(clock := gv + 2)
            else Goto(s, t, Validate(s.clock, 0, true));
    case Validate(wv, i, ok) =>
      if i < |T.rdSet| {
        step := ValidateEntryStep;
        assert T.rdSet[i] in T.rdSet;
        s' := Goto(s, t, Validate(wv, i + 1, ok && Coherent(s.locks[T.rdSet[i]], t, T.rv)));
      } else {
        step := DecideStep;
        s' := if ok then Finish(s, t, Committed(wv, T.wrSet.entries), WriteBack(wv, 0)) else Goto(s, t, Aborting(0));
      }
  }

  lemma CanEnd(s: State, t: Tid) returns (s': State, step: Step)
    requires t < |s.threads| && |s.locks| == TABSZ
    requires var pc := s.threads[t].pc; pc.WriteBack? || pc.Release? || pc.Aborting?
    requires forall e :: e in s.threads[t].held ==> e < |s.threads[t].wrSet.entries|
    ensures Next(s, s', t, step)
  {
    var T := s.threads[t];
    match T.pc
    case WriteBack(wv, i) =>
      step := WriteBackEntryStep;
      s' := if i < |T.wrSet.entries|
            then var e := T.wrSet.entries[i]; Goto(s, t, WriteBack(wv, i + 1)).(mem := s.mem[e.addr := e.valu])
            else Goto(s, t, Release(wv, 0));
    case Release(wv, i) =>
      step := DropEntryStep;
      s' := if i >= |T.wrSet.entries| then Goto(s, t, Idle)
            else if i in T.held then GiveBack(s, t, i, wv, Release(wv, i + 1))
            else Goto(s, t, Release(wv, i + 1));
    case Aborting(i) =>
      step := RestoreEntryStep;
      s' := if !T.holdsLocks || i >= |T.wrSet.entries| then Finish(s, t, Aborted, Idle)
            else if i in T.held then GiveBack(s, t, i, T.held[i], Aborting(i + 1))
            else Goto(s, t, Aborting(i + 1));
  }

  /** In every state of every run every thread can take a step. */
  lemma NeverStuck(run: seq<State>, i: nat, t: Tid) returns (s': State, step: Step)
    requires Run(run) && i < |run| && t < |run[i].threads|
    ensures |run[i].locks| == TABSZ && Next(run[i], s', t, step)
  {
    InvRun(run, i);
    var s := run[i];
    assert ThreadOk(s.clock, s.locks, t, s.threads[t]);
    match s.threads[t].pc
    case Idle | Active | LoadLock(_) | LoadValue(_, _) | LoadRecheck(_, _, _) => s', step := CanLoad(s, t);
    case StoreLock(_, _) | StoreValue(_, _, _) | StoreRecheck(_, _, _) => s', step := CanStore(s, t);
    case Acquire(_) =>
      step := AcquireLookStep;
      s' := CanLook(s, t);
    case AcquireRw(_, _) | AcquireW(_, _) | AcquireWCas(_, _, _) => s', step := CanTake(s, t);
    case ReadClock | CasClock(_) | Validate(_, _, _) => s', step := CanValidate(s, t);
    case WriteBack(_, _) | Release(_, _) | Aborting(_) => s', step := CanEnd(s, t);
  }
}
