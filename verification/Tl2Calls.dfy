/** The operations that a transaction is recorded with are those that its thread called for: what the machine logs is
    tied to the steps of the run, which alone know what was asked for and when. */
module Tl2Calls {
  import opened Options
  import opened Tl2Log
  import opened Tl2Machine

  datatype Move = Move(t: Tid, step: Step)

  datatype Call = LoadCall(addr: Addr) | StoreCall(addr: Addr, val: Val)

  /** Step `i` of the run is taken by the thread of move `i`, and is the step that it names. */
  ghost predicate MovesOf(run: seq<State>, moves: seq<Move>) {
    && |run| == |moves| + 1
    && forall i {:trigger TakenAs(run, i, moves[i])} :: 0 <= i < |moves| ==> TakenAs(run, i, moves[i])
  }

  predicate TakenAs(run: seq<State>, i: nat, move: Move) {
    i + 1 < |run| && |run[i].locks| == TABSZ && Next(run[i], run[i + 1], move.t, move.step)
  }

  lemma {:induction false} MovesExist(run: seq<State>, n: nat) returns (moves: seq<Move>)
    requires Run(run) && n < |run|
    ensures |moves| == n && forall i :: 0 <= i < n ==> TakenAs(run, i, moves[i])
  {
    if n == 0 {
      moves := [];
    } else {
      moves := MovesExist(run, n - 1);
      assert Stepped(run, n - 1);
      var t, step :| Next(run[n - 1], run[n], t, step);
      moves := moves + [Move(t, step)];
    }
  }

  /** What thread `t` has called for since it last began a transaction. */
  function Calls(moves: seq<Move>, t: Tid): seq<Call> {
    if moves == [] then []
    else
      var last, before := moves[|moves| - 1], Calls(moves[..|moves| - 1], t);
      if last.t == t then After(before, last.step) else before
  }

  function After(calls: seq<Call>, step: Step): seq<Call> {
    match step
    case BeginStep => []
    case LoadBeginStep(a) => calls + [LoadCall(a)]
    case StoreBeginStep(a, x) => calls + [StoreCall(a, x)]
    case _ => calls
  }

  /** The step in which thread `t` last began a transaction, or -1. */
  function BegunIn(moves: seq<Move>, t: Tid): (b: int)
    ensures -1 <= b < |moves|
    ensures b >= 0 ==> moves[b] == Move(t, BeginStep)
    ensures forall j :: b < j < |moves| ==> moves[j] != Move(t, BeginStep)
  {
    if moves == [] then -1
    else if moves[|moves| - 1] == Move(t, BeginStep) then |moves| - 1
    else BegunIn(moves[..|moves| - 1], t)
  }

  predicate Answers(op: Op, call: Call) {
    match op
    case Load(a, _) => call == LoadCall(a)
    case Store(a, x) => call == StoreCall(a, x)
  }

  /** The operations are the first calls, in order. */
  predicate AnswersFirst(ops: seq<Op>, calls: seq<Call>) {
    |ops| <= |calls| && forall i :: 0 <= i < |ops| ==> Answers(ops[i], calls[i])
  }

  predicate AnswersAll(ops: seq<Op>, calls: seq<Call>) {
    |ops| == |calls| && AnswersFirst(ops, calls)
  }

  /** The call that a thread is in. */
  function CallAt(pc: Pc): Option<Call> {
    match pc
    case LoadLock(a) => Some(LoadCall(a))
    case LoadValue(a, _) => Some(LoadCall(a))
    case LoadRecheck(a, _, _) => Some(LoadCall(a))
    case StoreLock(a, x) => Some(StoreCall(a, x))
    case StoreValue(a, x, _) => Some(StoreCall(a, x))
    case StoreRecheck(a, x, _) => Some(StoreCall(a, x))
    case _ => None
  }

  /** The thread is in a transaction that has not been recorded. */
  predicate Running(T: Thread) {
    !(T.pc.Idle? || T.pc.WriteBack? || T.pc.Release?)
  }

  /** All calls are answered, but for the one that the thread is in, or in which it gave up. */
  predicate Follows(T: Thread, calls: seq<Call>) {
    match CallAt(T.pc)
    case Some(call) => calls != [] && calls[|calls| - 1] == call && AnswersAll(T.ops, calls[..|calls| - 1])
    case None =>
      if T.pc.Aborting? then AnswersFirst(T.ops, calls) && |calls| <= |T.ops| + 1 else AnswersAll(T.ops, calls)
  }

  /** The transaction that thread `t` runs in state `i` is the one it began last. */
  ghost predicate RunsAsCalled(run: seq<State>, moves: seq<Move>, i: nat, t: Tid)
    requires i < |run| && i <= |moves| && t < |run[i].threads|
  {
    var b := BegunIn(moves[..i], t);
    && 0 <= b < i && run[i].threads[t].start == |run[b].done| && Follows(run[i].threads[t], Calls(moves[..i], t))
  }

  // ---- One step ----

  lemma LastMove(moves: seq<Move>, i: nat)
    requires i < |moves|
    ensures moves[..i + 1][..i] == moves[..i] && moves[..i + 1][i] == moves[i]
  {
  }

  /** Only thread `t` has moved. */
  ghost predicate OnlyOne(s: State, s': State, t: Tid) {
    && |s'.threads| == |s.threads| && s'.mem0 == s.mem0
    && forall u :: 0 <= u < |s.threads| && u != t ==> s'.threads[u] == s.threads[u]
  }

  lemma OnlyBody(s: State, s': State, t: Tid, step: Step)
    requires t < |s.threads| && |s.locks| == TABSZ
    requires match step
             case BeginStep => Begin(s, s', t)
             case LoadBeginStep(a) => LoadBegin(s, s', t, a)
             case LoadFirstStep => LoadFirst(s, s', t)
             case LoadMemoryStep => LoadMemory(s, s', t)
             case LoadSecondStep => LoadSecond(s, s', t)
             case StoreBeginStep(a, x) => StoreBegin(s, s', t, a, x)
             case StoreFirstStep => StoreFirst(s, s', t)
             case StoreMemoryStep => StoreMemory(s, s', t)
             case StoreSecondStep => StoreSecond(s, s', t)
             case RestartStep => Restart(s, s', t)
             case _ => false
    ensures OnlyOne(s, s', t)
  {
  }

  lemma OnlyCommit(s: State, s': State, t: Tid, step: Step)
    requires t < |s.threads| && |s.locks| == TABSZ
    requires match step
             case CommitBeginStep => CommitBegin(s, s', t)
             case AcquireLookStep => AcquireLook(s, s', t)
             case AcquireRwCasStep => AcquireRwCas(s, s', t)
             case AcquireWLookStep => AcquireWLook(s, s', t)
             case AcquireWTakeStep => AcquireWTake(s, s', t)
             case ClockLookStep => ClockLook(s, s', t)
             case ClockCasStep => ClockCas(s, s', t)
             case _ => false
    ensures OnlyOne(s, s', t)
  {
  }

  lemma OnlyEnd(s: State, s': State, t: Tid, step: Step)
    requires t < |s.threads| && |s.locks| == TABSZ
    requires match step
             case ValidateEntryStep => ValidateEntry(s, s', t)
             case DecideStep => Decide(s, s', t)
             case WriteBackEntryStep => WriteBackEntry(s, s', t)
             case DropEntryStep => DropEntry(s, s', t)
             case RestoreEntryStep => RestoreEntry(s, s', t)
             case _ => false
    ensures OnlyOne(s, s', t)
  {
  }

  lemma OthersStay(s: State, s': State, t: Tid, step: Step)
    requires |s.locks| == TABSZ && Next(s, s', t, step)
    ensures OnlyOne(s, s', t)
  {
    match step
    case BeginStep | LoadBeginStep(_) | LoadFirstStep | LoadMemoryStep | LoadSecondStep => OnlyBody(s, s', t, step);
    case StoreBeginStep(_, _) | StoreFirstStep | StoreMemoryStep | StoreSecondStep => OnlyBody(s, s', t, step);
    case RestartStep => OnlyBody(s, s', t, step);
    case CommitBeginStep | AcquireLookStep | AcquireRwCasStep | AcquireWLookStep => OnlyCommit(s, s', t, step);
    case AcquireWTakeStep | ClockLookStep | ClockCasStep => OnlyCommit(s, s', t, step);
    case _ => OnlyEnd(s, s', t, step);
  }

  /** The calls are followed on, in the same transaction. */
  predicate GoesOn(T: Thread, T': Thread, calls: seq<Call>) {
    Running(T') && T'.start == T.start && Follows(T', calls)
  }

  /** A call goes on, is given up, or is answered. */
  ghost predicate InCall(T: Thread, T': Thread) {
    && CallAt(T.pc).Some? && T'.start == T.start
    && (|| (T'.ops == T.ops && (T'.pc == Aborting(0) || CallAt(T'.pc) == CallAt(T.pc)))
        || (T'.pc == Active && exists op :: T'.ops == T.ops + [op] && Answers(op, CallAt(T.pc).value)))
  }

  lemma InCallFollows(T: Thread, T': Thread, calls: seq<Call>)
    requires InCall(T, T') && Follows(T, calls)
    ensures GoesOn(T, T', calls)
  {
    assert calls == calls[..|calls| - 1] + [calls[|calls| - 1]];
  }

  lemma LoadFirstInCall(s: State, s': State, t: Tid)
    requires t < |s.threads| && |s.locks| == TABSZ && LoadFirst(s, s', t)
    ensures t < |s'.threads| && InCall(s.threads[t], s'.threads[t])
  {
  }

  lemma LoadMemoryInCall(s: State, s': State, t: Tid)
    requires t < |s.threads| && LoadMemory(s, s', t)
    ensures t < |s'.threads| && InCall(s.threads[t], s'.threads[t])
  {
  }

  lemma LoadSecondInCall(s: State, s': State, t: Tid)
    requires t < |s.threads| && |s.locks| == TABSZ && LoadSecond(s, s', t)
    ensures t < |s'.threads| && InCall(s.threads[t], s'.threads[t])
  {
    var T := s.threads[t];
    assert Answers(Load(T.pc.a, T.pc.v), CallAt(T.pc).value);
  }

  lemma StoreFirstInCall(s: State, s': State, t: Tid)
    requires t < |s.threads| && |s.locks| == TABSZ && StoreFirst(s, s', t)
    ensures t < |s'.threads| && InCall(s.threads[t], s'.threads[t])
  {
  }

  lemma StoreMemoryInCall(s: State, s': State, t: Tid)
    requires t < |s.threads| && StoreMemory(s, s', t)
    ensures t < |s'.threads| && InCall(s.threads[t], s'.threads[t])
  {
    var T := s.threads[t];
    assert Answers(Store(T.pc.a, T.pc.x), CallAt(T.pc).value);
  }

  lemma StoreSecondInCall(s: State, s': State, t: Tid)
    requires t < |s.threads| && |s.locks| == TABSZ && StoreSecond(s, s', t)
    ensures t < |s'.threads| && InCall(s.threads[t], s'.threads[t])
  {
    var T := s.threads[t];
    assert Answers(Store(T.pc.a, T.pc.x), CallAt(T.pc).value);
  }

  lemma CallsOn(s: State, s': State, t: Tid, step: Step)
    requires |s.locks| == TABSZ && Next(s, s', t, step)
    requires step.LoadFirstStep? || step.LoadMemoryStep? || step.LoadSecondStep? || step.StoreFirstStep? ||
             step.StoreMemoryStep? || step.StoreSecondStep?
    ensures t < |s'.threads| && InCall(s.threads[t], s'.threads[t])
  {
    match step
    case LoadFirstStep => LoadFirstInCall(s, s', t);
    case LoadMemoryStep => LoadMemoryInCall(s, s', t);
    case LoadSecondStep => LoadSecondInCall(s, s', t);
    case StoreFirstStep => StoreFirstInCall(s, s', t);
    case StoreMemoryStep => StoreMemoryInCall(s, s', t);
    case StoreSecondStep => StoreSecondInCall(s, s', t);
  }

  lemma FollowsLoadBegin(s: State, s': State, t: Tid, a: Addr, calls: seq<Call>)
    requires t < |s.threads| && LoadBegin(s, s', t, a) && Follows(s.threads[t], calls)
    ensures t < |s'.threads| && GoesOn(s.threads[t], s'.threads[t], calls + [LoadCall(a)])
  {
    assert (calls + [LoadCall(a)])[..|calls|] == calls;
  }

  lemma FollowsStoreBegin(s: State, s': State, t: Tid, a: Addr, x: Val, calls: seq<Call>)
    requires t < |s.threads| && StoreBegin(s, s', t, a, x) && Follows(s.threads[t], calls)
    ensures t < |s'.threads| && GoesOn(s.threads[t], s'.threads[t], calls + [StoreCall(a, x)])
  {
    assert (calls + [StoreCall(a, x)])[..|calls|] == calls;
  }

  /** A commit or an abort goes on, or the transaction is over. */
  predicate Ends(T: Thread, T': Thread) {
    Running(T') ==>
      && Running(T) && T'.start == T.start && T'.ops == T.ops && CallAt(T.pc).None? && CallAt(T'.pc).None?
      && (T.pc.Aborting? ==> T'.pc.Aborting?)
  }

  lemma EndsFollows(T: Thread, T': Thread, calls: seq<Call>)
    requires Ends(T, T') && Running(T') && Follows(T, calls)
    ensures GoesOn(T, T', calls)
  {
  }

  lemma BodyEnds(s: State, s': State, t: Tid)
    requires t < |s.threads| && (Restart(s, s', t) || CommitBegin(s, s', t))
    ensures t < |s'.threads| && Ends(s.threads[t], s'.threads[t])
  {
  }

  lemma LookEnds(s: State, s': State, t: Tid)
    requires t < |s.threads| && |s.locks| == TABSZ && AcquireLook(s, s', t)
    ensures t < |s'.threads| && Ends(s.threads[t], s'.threads[t])
  {
  }

  lemma TakesEnd(s: State, s': State, t: Tid)
    requires t < |s.threads| && |s.locks| == TABSZ
    requires AcquireRwCas(s, s', t) || AcquireWTake(s, s', t)
    ensures t < |s'.threads| && Ends(s.threads[t], s'.threads[t])
  {
  }

  lemma SpinEnds(s: State, s': State, t: Tid)
    requires t < |s.threads| && |s.locks| == TABSZ && AcquireWLook(s, s', t)
    ensures t < |s'.threads| && Ends(s.threads[t], s'.threads[t])
  {
  }

  lemma ClockEnds(s: State, s': State, t: Tid)
    requires t < |s.threads| && (ClockLook(s, s', t) || ClockCas(s, s', t))
    ensures t < |s'.threads| && Ends(s.threads[t], s'.threads[t])
  {
  }

  lemma ValidateEnds(s: State, s': State, t: Tid)
    requires t < |s.threads| && |s.locks| == TABSZ && (ValidateEntry(s, s', t) || Decide(s, s', t))
    ensures t < |s'.threads| && Ends(s.threads[t], s'.threads[t])
  {
  }

  lemma GivesEnd(s: State, s': State, t: Tid)
    requires t < |s.threads| && |s.locks| == TABSZ
    requires WriteBackEntry(s, s', t) || DropEntry(s, s', t) || RestoreEntry(s, s', t)
    ensures t < |s'.threads| && Ends(s.threads[t], s'.threads[t])
  {
  }

  lemma EndsOn(s: State, s': State, t: Tid, step: Step)
    requires |s.locks| == TABSZ && Next(s, s', t, step)
    requires !(step.BeginStep? || step.LoadBeginStep? || step.LoadFirstStep? || step.LoadMemoryStep? ||
               step.LoadSecondStep? || step.StoreBeginStep? || step.StoreFirstStep? || step.StoreMemoryStep? ||
               step.StoreSecondStep?)
    ensures t < |s'.threads| && Ends(s.threads[t], s'.threads[t])
  {
    match step
    case RestartStep | CommitBeginStep => BodyEnds(s, s', t);
    case AcquireLookStep => LookEnds(s, s', t);
    case AcquireRwCasStep | AcquireWTakeStep => TakesEnd(s, s', t);
    case AcquireWLookStep => SpinEnds(s, s', t);
    case ClockLookStep | ClockCasStep => ClockEnds(s, s', t);
    case ValidateEntryStep | DecideStep => ValidateEnds(s, s', t);
    case WriteBackEntryStep | DropEntryStep | RestoreEntryStep => GivesEnd(s, s', t);
  }

  lemma FollowsStep(s: State, s': State, t: Tid, step: Step, calls: seq<Call>)
    requires |s.locks| == TABSZ && Next(s, s', t, step) && t < |s'.threads| && Running(s'.threads[t])
    requires Running(s.threads[t]) ==> Follows(s.threads[t], calls)
    ensures Follows(s'.threads[t], After(calls, step))
    ensures if step == BeginStep then s'.threads[t].start == |s.done|
            else Running(s.threads[t]) && s'.threads[t].start == s.threads[t].start
  {
    if step.LoadBeginStep? {
      FollowsLoadBegin(s, s', t, step.a, calls);
    } else if step.StoreBeginStep? {
      FollowsStoreBegin(s, s', t, step.a, step.x, calls);
    } else if step.LoadFirstStep? || step.LoadMemoryStep? || step.LoadSecondStep? || step.StoreFirstStep? ||
              step.StoreMemoryStep? || step.StoreSecondStep? {
      CallsOn(s, s', t, step);
      InCallFollows(s.threads[t], s'.threads[t], calls);
    } else if step != BeginStep {
      EndsOn(s, s', t, step);
      EndsFollows(s.threads[t], s'.threads[t], calls);
    }
  }

  // ---- Whole runs ----

  /** In every state of every run, what a thread that runs a transaction has recorded of it are the calls it has made
      since it began it. */
  lemma {:induction false} RunningAsCalled(run: seq<State>, moves: seq<Move>, i: nat, t: Tid)
    requires Run(run) && MovesOf(run, moves) && i < |run| && t < |run[i].threads| && Running(run[i].threads[t])
    ensures RunsAsCalled(run, moves, i, t)
  {
    assert i > 0;
    var s, s', move := run[i - 1], run[i], moves[i - 1];
    assert TakenAs(run, i - 1, move);
    OthersStay(s, s', move.t, move.step);
    LastMove(moves, i - 1);
    if Running(s.threads[t]) {
      RunningAsCalled(run, moves, i - 1, t);
    }
    if move.t == t {
      FollowsStep(s, s', t, move.step, Calls(moves[..i - 1], t));
    }
  }

  /** Record `x` was made in step `j`, by a thread that so ended the transaction it had begun last: the record has what
      the thread called for, all of it unless it gave up, and counts what had ended when it began. */
  ghost predicate RecordedIn(run: seq<State>, moves: seq<Move>, j: nat, x: nat) {
    && j + 1 < |run| && j < |moves| && |run[j].done| == x && |run[j + 1].done| == x + 1
    && var r, t, b := run[j + 1].done[x], moves[j].t, BegunIn(moves[..j], moves[j].t);
       && 0 <= b && r.start == |run[b].done|
       && AnswersFirst(r.ops, Calls(moves[..j], t))
       && (r.outcome.Aborted? ==> |Calls(moves[..j], t)| <= |r.ops| + 1)
       && (!r.outcome.Aborted? ==> AnswersAll(r.ops, Calls(moves[..j], t)))
  }

  /** The step records the transaction of thread `t`, which so is over. */
  ghost predicate Records(s: State, s': State, t: Tid) {
    && t < |s.threads| && t < |s'.threads| && |s'.done| == |s.done| + 1 && s.done <= s'.done
    && Running(s.threads[t]) && !Running(s'.threads[t]) && CallAt(s.threads[t].pc).None?
    && var T, r := s.threads[t], s'.done[|s.done|];
       r.start == T.start && r.ops == T.ops && (T.pc.Aborting? <==> r.outcome.Aborted?)
  }

  /** The step records nothing, and the transaction of thread `t` goes on, or there is none. */
  ghost predicate RecordsNothing(s: State, s': State, t: Tid) {
    t < |s.threads| && t < |s'.threads| && s'.done == s.done && Running(s.threads[t]) == Running(s'.threads[t])
  }

  lemma BodyRecords(s: State, s': State, t: Tid, step: Step)
    requires |s.locks| == TABSZ && Next(s, s', t, step)
    requires step.LoadBeginStep? || step.LoadFirstStep? || step.LoadMemoryStep? || step.LoadSecondStep? ||
             step.StoreBeginStep? || step.StoreFirstStep? || step.StoreMemoryStep? || step.StoreSecondStep? ||
             step.RestartStep?
    ensures RecordsNothing(s, s', t)
  {
  }

  lemma LookRecords(s: State, s': State, t: Tid)
    requires t < |s.threads| && |s.locks| == TABSZ && (AcquireLook(s, s', t) || AcquireWLook(s, s', t))
    ensures RecordsNothing(s, s', t)
  {
  }

  lemma TakeRecords(s: State, s': State, t: Tid)
    requires t < |s.threads| && |s.locks| == TABSZ && (AcquireRwCas(s, s', t) || AcquireWTake(s, s', t))
    ensures RecordsNothing(s, s', t)
  {
  }

  lemma RestRecords(s: State, s': State, t: Tid, step: Step)
    requires |s.locks| == TABSZ && Next(s, s', t, step)
    requires step.ClockLookStep? || step.ClockCasStep? || step.ValidateEntryStep? || step.WriteBackEntryStep? ||
             step.DropEntryStep?
    ensures RecordsNothing(s, s', t)
  {
  }

  lemma EndRecords(s: State, s': State, t: Tid, step: Step)
    requires |s.locks| == TABSZ && Next(s, s', t, step)
    requires step.CommitBeginStep? || step.DecideStep? || step.RestoreEntryStep?
    ensures Records(s, s', t) || RecordsNothing(s, s', t)
  {
  }

  lemma RecordStep(s: State, s': State, t: Tid, step: Step)
    requires |s.locks| == TABSZ && Next(s, s', t, step)
    ensures t < |s'.threads| && s.done <= s'.done
    ensures step == BeginStep ==> s'.done == s.done && !Running(s.threads[t]) && Running(s'.threads[t])
    ensures step != BeginStep ==> Records(s, s', t) || RecordsNothing(s, s', t)
  {
    match step
    case BeginStep =>
    case CommitBeginStep | DecideStep | RestoreEntryStep => EndRecords(s, s', t, step);
    case AcquireLookStep | AcquireWLookStep => LookRecords(s, s', t);
    case AcquireRwCasStep | AcquireWTakeStep => TakeRecords(s, s', t);
    case ClockLookStep | ClockCasStep | ValidateEntryStep | WriteBackEntryStep | DropEntryStep =>
      RestRecords(s, s', t, step);
    case _ => BodyRecords(s, s', t, step);
  }

  lemma {:induction false} RecordAsCalled(run: seq<State>, moves: seq<Move>, i: nat, x: nat) returns (j: nat)
    requires Run(run) && MovesOf(run, moves) && i < |run| && x < |run[i].done|
    ensures j < i && RecordedIn(run, moves, j, x) && run[j + 1].done[x] == run[i].done[x]
  {
    assert i > 0;
    var s, s', move := run[i - 1], run[i], moves[i - 1];
    assert TakenAs(run, i - 1, move);
    RecordStep(s, s', move.t, move.step);
    if x < |s.done| {
      j := RecordAsCalled(run, moves, i - 1, x);
    } else {
      j := i - 1;
      RunningAsCalled(run, moves, i - 1, move.t);
    }
  }

  // ---- For the statements about whole runs ----

  /** Whatever the steps of the run are taken for, all that is recorded up to state `i` comes from the calls. */
  ghost predicate AsCalled(run: seq<State>, i: nat)
    requires i < |run|
  {
    forall moves :: MovesOf(run, moves) ==>
      && (forall x: nat :: x < |run[i].done| ==> RecordedBefore(run, moves, i, x))
      && (forall t: nat :: t < |run[i].threads| && Running(run[i].threads[t]) ==> RunsAsCalled(run, moves, i, t))
  }

  ghost predicate RecordedBefore(run: seq<State>, moves: seq<Move>, i: nat, x: nat)
    requires i < |run| && x < |run[i].done|
  {
    exists j: nat :: j < i && RecordedIn(run, moves, j, x) && run[j + 1].done[x] == run[i].done[x]
  }

  lemma AllAsCalled(run: seq<State>, i: nat)
    requires Run(run) && i < |run|
    ensures AsCalled(run, i) && run[i].mem0 == run[0].mem
  {
    forall moves | MovesOf(run, moves)
      ensures forall x: nat :: x < |run[i].done| ==> RecordedBefore(run, moves, i, x)
      ensures forall t: nat :: t < |run[i].threads| && Running(run[i].threads[t]) ==> RunsAsCalled(run, moves, i, t)
    {
      forall x: nat | x < |run[i].done| ensures RecordedBefore(run, moves, i, x) {
        var j := RecordAsCalled(run, moves, i, x);
      }
      forall t: nat | t < |run[i].threads| && Running(run[i].threads[t]) ensures RunsAsCalled(run, moves, i, t) {
        RunningAsCalled(run, moves, i, t);
      }
    }
    FirstMemory(run, i);
  }

  lemma {:induction false} FirstMemory(run: seq<State>, i: nat)
    requires Run(run) && i < |run|
    ensures run[i].mem0 == run[0].mem
  {
    if i > 0 {
      FirstMemory(run, i - 1);
      assert Stepped(run, i - 1);
      MemoryKept(run[i - 1], run[i]);
    }
  }

  lemma MemoryKept(s: State, s': State)
    requires Moved(s, s')
    ensures s'.mem0 == s.mem0
  {
    var t, step :| Next(s, s', t, step);
    OthersStay(s, s', t, step);
  }

  /** How many transactions thread `t` has begun, and how many it has ended with a record. */
  function Begun(moves: seq<Move>, t: Tid): nat {
    if moves == [] then 0
    else Begun(moves[..|moves| - 1], t) + if moves[|moves| - 1] == Move(t, BeginStep) then 1 else 0
  }

  function Ended(run: seq<State>, moves: seq<Move>, t: Tid): nat
    requires |moves| < |run|
  {
    if moves == [] then 0
    else
      var n := |moves| - 1;
      Ended(run, moves[..n], t) + if moves[n].t == t && |run[n + 1].done| > |run[n].done| then 1 else 0
  }

  /** Every transaction is recorded once, when it is over, and not before. */
  lemma {:induction false} EndedOnce(run: seq<State>, moves: seq<Move>, i: nat, t: Tid)
    requires Run(run) && MovesOf(run, moves) && i < |run| && t < |run[i].threads|
    ensures Begun(moves[..i], t) == Ended(run, moves[..i], t) + if Running(run[i].threads[t]) then 1 else 0
  {
    if i > 0 {
      var s, s', move := run[i - 1], run[i], moves[i - 1];
      assert TakenAs(run, i - 1, move);
      OthersStay(s, s', move.t, move.step);
      RecordStep(s, s', move.t, move.step);
      LastMove(moves, i - 1);
      EndedOnce(run, moves, i - 1, t);
    }
  }
}
