/** Who gets the lock, and when: the order in which threads are served, told from the states of a run alone, and when a
    thread gets in while the others stand still. */
module BakeryOrder {
  import opened Options
  import opened BakeryLock

  // ---- First come, first served ----

  /** The thread has its ticket and waits for its turn, or has it. */
  predicate Waiting(pc: Pc) {
    pc.WaitChoosing? || pc.Wait1? || pc.Wait2? || pc.Wait3? || pc.Critical?
  }

  /** The thread has not begun to choose a ticket. */
  predicate NotChosen(pc: Pc) {
    pc.Outside? || pc.SetChoosing?
  }

  /** Thread `v` waits, and thread `u` has not begun to choose or did so when `v` was waiting already. */
  predicate Behind(s: State, u: Tid, v: Tid) {
    && Shape(s) && u < |s.threads| && v < |s.threads| && Waiting(s.threads[v].pc)
    && (NotChosen(s.threads[u].pc) ||
        (var m := s.threads[v].machine; m in s.threads[u].ahead && s.threads[u].ahead[m] == s.turn[m]))
  }

  lemma BehindWaits(s: State, u: Tid, v: Tid)
    requires Inv(s) && Behind(s, u, v)
    ensures s.threads[u].pc != Critical
  {
    var m := s.threads[v].machine;
    assert ThreadOk(s, u) && ThreadOk(s, v) && QueueOk(s, u, m) && PairOk(s, u, v);
  }

  /** The step of `v` itself: it goes on waiting, gets in, or leaves. */
  lemma BehindOwn(s: State, s': State, u: Tid, v: Tid)
    requires Next(s, s', v) && Behind(s, u, v) && u != v
    ensures Behind(s', u, v) || (v < |s'.threads| && s.threads[v].pc == Critical && s'.threads[v].pc == ReleaseLocal)
  {
    FrameThreads(s, s', v);
  }

  /** A step of `u`, which finds the ticket of `v` if it begins to choose. */
  lemma BehindLater(s: State, s': State, u: Tid, v: Tid)
    requires Next(s, s', u) && Behind(s, u, v) && u != v && ThreadOk(s, u) && ThreadOk(s, v)
    requires s.threads[u].pc != Critical && s.threads[u].pc != ReleaseLocal
    ensures Behind(s', u, v) && s'.threads[u].pc != ReleaseLocal
  {
    Frame(s, s', u);
  }

  lemma BehindOther(s: State, s': State, t: Tid, u: Tid, v: Tid)
    requires Next(s, s', t) && Behind(s, u, v) && t != u && t != v && ThreadOk(s, t) && ThreadOk(s, v)
    ensures Behind(s', u, v) && s'.threads[u] == s.threads[u]
  {
    Frame(s, s', t);
  }

  lemma BehindStep(s: State, s': State, t: Tid, u: Tid, v: Tid)
    requires Inv(s) && Next(s, s', t) && Behind(s, u, v) && s.threads[u].pc != ReleaseLocal
    ensures v < |s'.threads| && u < |s'.threads|
    ensures Behind(s', u, v) || (s.threads[v].pc == Critical && s'.threads[v].pc == ReleaseLocal)
    ensures s'.threads[u].pc != ReleaseLocal
  {
    FrameThreads(s, s', t);
    BehindWaits(s, u, v);
    assert u != v by { Apart(s, u, v); }
    assert ThreadOk(s, v) && ThreadOk(s, t);
    if t == v {
      BehindOwn(s, s', u, v);
    } else if t == u {
      BehindLater(s, s', u, v);
    } else {
      BehindOther(s, s', t, u, v);
    }
  }

  lemma Apart(s: State, u: Tid, v: Tid)
    requires Inv(s) && Behind(s, u, v)
    ensures u != v
  {
    assert ThreadOk(s, v) && QueueOk(s, v, s.threads[v].machine);
  }

  /** Thread `v` leaves the critical section between states `i` and `j`. */
  ghost predicate Served(run: seq<State>, i: nat, j: nat, v: Tid) {
    exists k: nat :: i <= k < j < |run| && LeavesIn(run, k, v)
  }

  predicate LeavesIn(run: seq<State>, k: nat, v: Tid) {
    && k + 1 < |run| && v < |run[k].threads| && v < |run[k + 1].threads|
    && run[k].threads[v].pc == Critical && run[k + 1].threads[v].pc == ReleaseLocal
  }

  lemma {:induction false} BehindOrServed(run: seq<State>, i: nat, j: nat, u: Tid, v: Tid)
    requires Run(run) && i <= j < |run| && u < |run[i].threads| && v < |run[i].threads|
    requires Waiting(run[i].threads[v].pc) && NotChosen(run[i].threads[u].pc)
    ensures Served(run, i, j, v) || (Behind(run[j], u, v) && run[j].threads[u].pc != ReleaseLocal)
  {
    InvRun(run, j);
    if i < j {
      BehindOrServed(run, i, j - 1, u, v);
      if Served(run, i, j - 1, v) {
        var k: nat :| i <= k < j - 1 && LeavesIn(run, k, v);
      } else {
        InvRun(run, j - 1);
        assert Stepped(run, j - 1);
        var t :| Next(run[j - 1], run[j], t);
        BehindStep(run[j - 1], run[j], t, u, v);
        assert Behind(run[j], u, v) || LeavesIn(run, j - 1, v);
      }
    }
  }

  /** First come, first served, told from the states of the run: if thread `v` waits with its ticket when thread `u` has
      not begun to choose one, `u` does not get in before `v` has been in and out. */
  lemma ServedInOrder(run: seq<State>, i: nat, j: nat, u: Tid, v: Tid)
    requires Run(run) && i <= j < |run| && u < |run[i].threads| && v < |run[i].threads| && u < |run[j].threads|
    requires Waiting(run[i].threads[v].pc) && NotChosen(run[i].threads[u].pc)
    requires run[j].threads[u].pc == Critical
    ensures Served(run, i, j, v)
  {
    BehindOrServed(run, i, j, u, v);
    InvRun(run, j);
    if Behind(run[j], u, v) {
      BehindWaits(run[j], u, v);
    }
  }

  // ---- Getting in while the others stand still ----

  function MaxFrom(number: seq<nat>, i: nat): nat
    requires i <= |number|
    decreases |number| - i
  {
    if i == |number| then 0 else
    var rest := MaxFrom(number, i + 1);
    if number[i] > rest then number[i] else rest
  }

  function Max(a: nat, b: nat): nat {
    if a > b then a else b
  }

  /** The ticket that the thread has, or will have if the others stand still. */
  function Ticket(s: State, t: Tid): nat
    requires Shape(s) && t < |s.threads|
  {
    match s.threads[t].pc
    case Outside => MaxFrom(s.number, 0) + 1
    case SetChoosing => MaxFrom(s.number, 0) + 1
    case Scan(i, max) => if i <= |s.number| then Max(max, MaxFrom(s.number, i)) + 1 else max + 1
    case WriteNumber(max) => max + 1
    case _ => s.number[s.threads[t].machine]
  }

  /** Machine `m` does not keep the thread waiting: the thread is past it, or `m` is not choosing and its ticket, if it
      has one, comes after that of the thread. */
  predicate ClearOf(s: State, t: Tid, m: Machine)
    requires Shape(s) && t < |s.threads| && m < |s.number|
  {
    var T := s.threads[t];
    m == T.machine || Passed(T.pc, m) ||
    ((s.choosing[m] ==> SawIdle(T.pc, m)) &&
     (s.number[m] != 0 ==> Smaller(Ticket(s, t), T.machine, s.number[m], m)))
  }

  ghost predicate Clear(s: State, t: Tid)
    requires Shape(s) && t < |s.threads|
  {
    forall m :: 0 <= m < |s.number| ==> ClearOf(s, t, m)
  }

  /** The thread wants the lock and does not have it yet; from outside it can take the mutex of its machine. */
  predicate Wants(s: State, t: Tid) {
    && Shape(s) && t < |s.threads| && !s.threads[t].pc.Critical? && !s.threads[t].pc.ReleaseLocal?
    && (s.threads[t].pc == Outside ==> s.localLock[s.threads[t].machine].None?)
  }

  /** The most steps that the thread has to take to get in. */
  function Distance(s: State, t: Tid): int
    requires Shape(s) && t < |s.threads|
  {
    var n := |s.number|;
    match s.threads[t].pc
    case Outside => 5 * n + 5
    case SetChoosing => 5 * n + 4
    case Scan(i, _) => 5 * n + 3 - i
    case WriteNumber(_) => 4 * n + 2
    case ClearChoosing => 4 * n + 1
    case WaitChoosing(j) => 4 * (n - j)
    case Wait1(j) => 4 * (n - j) - 1
    case Wait2(j) => if j < n && s.number[j] == 0 then 4 * (n - j) else 4 * (n - j) - 2
    case Wait3(j) => 4 * (n - j) - 3
    case _ => 0
  }

  /** In a step of its own the thread keeps the ticket it has or will have. */
  lemma TicketStays(s: State, s': State, t: Tid)
    requires Next(s, s', t) && Wants(s, t) && ThreadOk(s, t)
    ensures Shape(s') && t < |s'.threads| && s'.threads[t].machine == s.threads[t].machine
    ensures |s'.number| == |s.number| && Ticket(s', t) == Ticket(s, t)
  {
    FrameThreads(s, s', t);
  }

  /** At the third read the machine waited for has no ticket, or one with a number that is not smaller. */
  ghost predicate ThirdOk(s: State, t: Tid)
    requires Shape(s) && t < |s.threads|
  {
    s.threads[t].pc.Wait3? ==>
      var j := s.threads[t].pc.j;
      j < |s.number| && (s.number[j] == 0 || s.number[s.threads[t].machine] <= s.number[j])
  }

  lemma ThirdHolds(s: State, t: Tid)
    requires Inv(s) && t < |s.threads|
    ensures ThirdOk(s, t)
  {
    assert ThreadOk(s, t);
    if s.threads[t].pc.Wait3? && s.number[s.threads[t].pc.j] != 0 {
      var j := s.threads[t].pc.j;
      assert MachineOk(s, j);
      var u := s.localLock[j].value;
      assert ThreadOk(s, u) && PairOk(s, t, u);
    }
  }

  /** What keeps the thread waiting, while the others stand still, does so until it gets in, and nothing else does. */
  lemma ClearOfStays(s: State, s': State, t: Tid, m: Machine)
    requires Next(s, s', t) && Wants(s, t) && ThreadOk(s, t) && ThirdOk(s, t) && m < |s.number|
    ensures Shape(s') && t < |s'.threads| && m < |s'.number| && (ClearOf(s', t, m) <==> ClearOf(s, t, m))
  {
    TicketStays(s, s', t);
    Frame(s, s', t);
  }

  lemma Nearer(s: State, s': State, t: Tid)
    requires Next(s, s', t) && Wants(s, t) && ThreadOk(s, t) && ThirdOk(s, t) && Clear(s, t)
    ensures Shape(s') && t < |s'.threads| && 0 <= Distance(s', t) < Distance(s, t)
    ensures s'.threads[t].pc == Critical || Wants(s', t)
  {
    FrameThreads(s, s', t);
    var pc := s.threads[t].pc;
    if pc.WaitChoosing? || pc.Wait1? || pc.Wait2? || pc.Wait3? {
      assert ClearOf(s, t, pc.j);
    }
  }

  lemma StillWants(s: State, s': State, t: Tid)
    requires Next(s, s', t) && Wants(s, t)
    ensures t < |s'.threads| && (s'.threads[t].pc == Critical || Wants(s', t))
  {
    FrameThreads(s, s', t);
  }

  /** From state `b` to state `i` only thread `t` takes steps. */
  ghost predicate Alone(run: seq<State>, b: nat, i: nat, t: Tid) {
    b <= i < |run| && forall k: nat {:trigger StepsIn(run, k, t)} :: b <= k < i ==> StepsIn(run, k, t)
  }

  predicate StepsIn(run: seq<State>, k: nat, t: Tid) {
    k + 1 < |run| && Next(run[k], run[k + 1], t)
  }

  lemma {:induction false} KeptOut(run: seq<State>, b: nat, i: nat, t: Tid, m: Machine)
    requires Run(run) && Alone(run, b, i, t) && Wants(run[b], t) && m < |run[b].number| && !ClearOf(run[b], t, m)
    ensures Wants(run[i], t) && m < |run[i].number| && !ClearOf(run[i], t, m)
  {
    if b < i {
      KeptOut(run, b, i - 1, t, m);
      assert StepsIn(run, i - 1, t);
      InvRun(run, i - 1);
      assert ThreadOk(run[i - 1], t);
      ThirdHolds(run[i - 1], t);
      ClearOfStays(run[i - 1], run[i], t, m);
      StillWants(run[i - 1], run[i], t);
    }
  }

  lemma {:induction false} ComesNearer(run: seq<State>, b: nat, i: nat, t: Tid)
    requires Run(run) && Alone(run, b, i, t) && Wants(run[b], t) && Clear(run[b], t)
    requires forall k :: b <= k <= i ==> t < |run[k].threads| && run[k].threads[t].pc != Critical
    ensures Wants(run[i], t) && Clear(run[i], t) && 0 <= Distance(run[i], t) <= Distance(run[b], t) - (i - b)
  {
    InvRun(run, b);
    assert ThreadOk(run[b], t);
    if b < i {
      ComesNearer(run, b, i - 1, t);
      assert StepsIn(run, i - 1, t);
      InvRun(run, i - 1);
      assert ThreadOk(run[i - 1], t);
      ThirdHolds(run[i - 1], t);
      Nearer(run[i - 1], run[i], t);
      forall m | 0 <= m < |run[i].number| ensures ClearOf(run[i], t, m) {
        FrameThreads(run[i - 1], run[i], t);
        ClearOfStays(run[i - 1], run[i], t, m);
      }
    }
  }

  /** A thread that alone takes steps gets into the critical section if and only if no machine keeps it waiting: then it
      is in, or has been, after as many steps as its distance tells; else it never is. */
  lemma GetsInAlone(run: seq<State>, b: nat, i: nat, t: Tid)
    requires Run(run) && Alone(run, b, i, t) && Wants(run[b], t)
    ensures Clear(run[b], t) && i - b >= Distance(run[b], t) ==>
              exists k :: b <= k <= i && t < |run[k].threads| && run[k].threads[t].pc == Critical
    ensures !Clear(run[b], t) ==> t < |run[i].threads| && run[i].threads[t].pc != Critical
  {
    if !Clear(run[b], t) {
      var m: nat :| m < |run[b].number| && !ClearOf(run[b], t, m);
      KeptOut(run, b, i, t, m);
    } else if forall k :: b <= k <= i ==> t < |run[k].threads| && run[k].threads[t].pc != Critical {
      ComesNearer(run, b, i, t);
      InvRun(run, i);
      assert ThreadOk(run[i], t);
      NotThere(run[i], t);
    } else {
      ThreadsStay(run, b, i, t);
    }
  }

  lemma NotThere(s: State, t: Tid)
    requires Wants(s, t) && ThreadOk(s, t)
    ensures Distance(s, t) > 0
  {
  }

  lemma {:induction false} ThreadsStay(run: seq<State>, b: nat, i: nat, t: Tid)
    requires Run(run) && b <= i < |run| && t < |run[b].threads|
    ensures forall k :: b <= k <= i ==> t < |run[k].threads|
  {
    if b < i {
      ThreadsStay(run, b, i - 1, t);
      assert Stepped(run, i - 1);
      var u :| Next(run[i - 1], run[i], u);
      FrameThreads(run[i - 1], run[i], u);
    }
  }

  /** A thread that wants the lock can always take its next step. */
  lemma CanStep(s: State, t: Tid) returns (s': State)
    requires Wants(s, t) && ThreadOk(s, t)
    ensures Next(s, s', t)
  {
    var T, id := s.threads[t], s.threads[t].machine;
    match T.pc
    case Outside => s' := Goto(s, t, SetChoosing).(localLock := s.localLock[id := Some(t)]);
    case SetChoosing =>
      s' := s.(threads := s.threads[t := T.(pc := Scan(0, 0), ahead := Ticketed(s))],
               choosing := s.choosing[id := true]);
    case Scan(i, max) =>
      s' := if i < |s.number| then Goto(s, t, Scan(i + 1, if s.number[i] > max then s.number[i] else max))
            else Goto(s, t, WriteNumber(max));
    case WriteNumber(max) => s' := Goto(s, t, ClearChoosing).(number := s.number[id := max + 1]);
    case ClearChoosing => s' := Goto(s, t, WaitChoosing(0)).(choosing := s.choosing[id := false]);
    case WaitChoosing(j) => s' := Goto(s, t, if s.choosing[j] then WaitChoosing(j) else Wait1(j));
    case Wait1(j) => s' := Goto(s, t, if s.number[j] != 0 then Wait2(j) else After(s, j));
    case Wait2(j) => s' := Goto(s, t, if s.number[j] < s.number[id] then Wait1(j) else Wait3(j));
    case Wait3(j) => s' := Goto(s, t, if s.number[j] == s.number[id] && j < id then Wait1(j) else After(s, j));
  }
}
