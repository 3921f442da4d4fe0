/** The cross-machine lock: Lamport's bakery algorithm between the machines, one shared read or write
    at a time, inside a mutex between the threads of each machine.  `turn` and `ahead` record the
    history of the run; no step reads them. */
module BakeryLock {
  import opened Options

  type Machine = nat
  type Tid = nat

  /** Where a thread is.  `Scan` reads the tickets of all machines, `WaitChoosing` waits for machine `j`
      to finish choosing, and `Wait1` to `Wait3` are the three reads of `number[j]` in the wait test. */
  datatype Pc =
    | Outside
    | SetChoosing
    | Scan(i: nat, max: nat)
    | WriteNumber(max: nat)
    | ClearChoosing
    | WaitChoosing(j: nat)
    | Wait1(j: nat)
    | Wait2(j: nat)
    | Wait3(j: nat)
    | Critical
    | ReleaseLocal

  /** `ahead` maps the machines that held a ticket when this thread started to choose its own to the
      number of turns they had completed by then. */
  datatype Thread = Thread(machine: Machine, pc: Pc, ahead: map<Machine, nat>)

  datatype State = State(
    choosing: seq<bool>,
    number: seq<nat>,
    localLock: seq<Option<Tid>>,
    threads: seq<Thread>,
    turn: seq<nat>)

  predicate Shape(s: State) {
    && |s.choosing| == |s.number| == |s.localLock| == |s.turn|
    && forall t :: 0 <= t < |s.threads| ==> s.threads[t].machine < |s.number|
  }

  predicate Init(s: State) {
    && Shape(s)
    && (forall m :: 0 <= m < |s.number| ==> !s.choosing[m] && s.number[m] == 0 && s.localLock[m].None?)
    && (forall t :: 0 <= t < |s.threads| ==> s.threads[t].pc == Outside)
  }

  function Goto(s: State, t: Tid, pc: Pc): State
    requires t < |s.threads|
  {
    s.(threads := s.threads[t := s.threads[t].(pc := pc)])
  }

  /** The machines that have a ticket and are done choosing it, with the turns they have completed. */
  function Ticketed(s: State): map<Machine, nat>
    requires Shape(s)
  {
    map m | 0 <= m < |s.number| && s.number[m] != 0 && !s.choosing[m] :: s.turn[m]
  }

  /** The next position in the waiting loop after machine `j`. */
  function After(s: State, j: nat): Pc {
    if j + 1 < |s.number| then WaitChoosing(j + 1) else Critical
  }

  predicate Next(s: State, s': State, t: Tid) {
    && Shape(s)
    && t < |s.threads|
    && var T := s.threads[t];
       var id := T.machine;
       match T.pc
       case Outside =>
         s.localLock[id].None? &&
         s' == Goto(s, t, SetChoosing).(localLock := s.localLock[id := Some(t)])
       case SetChoosing =>
         s' == s.(threads := s.threads[t := T.(pc := Scan(0, 0), ahead := Ticketed(s))],
                  choosing := s.choosing[id := true])
       case Scan(i, max) =>
         if i < |s.number| then s' == Goto(s, t, Scan(i + 1, if s.number[i] > max then s.number[i] else max))
         else s' == Goto(s, t, WriteNumber(max))
       case WriteNumber(max) =>
         s' == Goto(s, t, ClearChoosing).(number := s.number[id := max + 1])
       case ClearChoosing =>
         s' == Goto(s, t, WaitChoosing(0)).(choosing := s.choosing[id := false])
       case WaitChoosing(j) =>
         j < |s.number| && s' == Goto(s, t, if s.choosing[j] then WaitChoosing(j) else Wait1(j))
       case Wait1(j) =>
         j < |s.number| && s' == Goto(s, t, if s.number[j] != 0 then Wait2(j) else After(s, j))
       case Wait2(j) =>
         j < |s.number| && s' == Goto(s, t, if s.number[j] < s.number[id] then Wait1(j) else Wait3(j))
       case Wait3(j) =>
         j < |s.number| && s' == Goto(s, t, if s.number[j] == s.number[id] && j < id then Wait1(j) else After(s, j))
       case Critical =>
         s' == Goto(s, t, ReleaseLocal).(number := s.number[id := 0], turn := s.turn[id := s.turn[id] + 1])
       case ReleaseLocal =>
         s' == Goto(s, t, Outside).(localLock := s.localLock[id := None])
  }

  ghost predicate Moved(s: State, s': State) {
    exists t :: Next(s, s', t)
  }

  ghost predicate Stepped(run: seq<State>, i: nat)
    requires i + 1 < |run|
  {
    Moved(run[i], run[i + 1])
  }

  ghost predicate Run(run: seq<State>) {
    && |run| > 0
    && Init(run[0])
    && forall i: nat :: i + 1 < |run| ==> Stepped(run, i)
  }

  // ---- Local facts: the mutex of a machine, and its two shared words ----

  /** The thread is between acquiring and releasing its machine's mutex. */
  predicate Inside(pc: Pc) {
    pc != Outside
  }

  /** The thread's machine has its ticket. */
  predicate HasTicket(pc: Pc) {
    pc.ClearChoosing? || pc.WaitChoosing? || pc.Wait1? || pc.Wait2? || pc.Wait3? || pc.Critical?
  }

  predicate Choosing(pc: Pc) {
    pc.Scan? || pc.WriteNumber? || pc.ClearChoosing?
  }

  predicate ThreadOk(s: State, t: Tid)
    requires Shape(s) && t < |s.threads|
  {
    var T := s.threads[t];
    && (Inside(T.pc) ==> s.localLock[T.machine] == Some(t))
    && (Inside(T.pc) ==> (s.number[T.machine] != 0 <==> HasTicket(T.pc)))
    && (Inside(T.pc) ==> (s.choosing[T.machine] <==> Choosing(T.pc)))
    && (T.pc.WaitChoosing? || T.pc.Wait1? || T.pc.Wait2? || T.pc.Wait3? ==> T.pc.j < |s.number|)
    && (T.pc.Scan? ==> T.pc.i <= |s.number|)
  }

  predicate MachineOk(s: State, m: Machine)
    requires Shape(s) && m < |s.number|
  {
    match s.localLock[m]
    case None => s.number[m] == 0 && !s.choosing[m]
    case Some(t) => t < |s.threads| && s.threads[t].machine == m && Inside(s.threads[t].pc)
  }

  // ---- Tickets ----

  predicate Smaller(n: nat, i: Machine, n': nat, i': Machine) {
    n < n' || (n == n' && i < i')
  }

  /** If thread `u` is choosing a ticket, it will be above the ticket of machine `i`. */
  predicate WillExceed(s: State, u: Tid, i: Machine)
    requires Shape(s) && u < |s.threads| && i < |s.number|
  {
    match s.threads[u].pc
    case Scan(x, max) => x <= i || s.number[i] <= max
    case WriteNumber(max) => s.number[i] <= max
    case ClearChoosing => s.number[i] < s.number[s.threads[u].machine]
    case _ => true
  }

  /** Thread `t` has seen machine `j` not choosing. */
  predicate SawIdle(pc: Pc, j: Machine) {
    match pc
    case WaitChoosing(x) => j < x
    case Wait1(x) => j <= x
    case Wait2(x) => j <= x
    case Wait3(x) => j <= x
    case Critical => true
    case _ => false
  }

  /** Thread `t` is done waiting for machine `j`. */
  predicate Passed(pc: Pc, j: Machine) {
    match pc
    case WaitChoosing(x) => j < x
    case Wait1(x) => j < x
    case Wait2(x) => j < x
    case Wait3(x) => j < x
    case Critical => true
    case _ => false
  }

  predicate PairOk(s: State, t: Tid, u: Tid)
    requires Shape(s) && t < |s.threads| && u < |s.threads|
  {
    var i, j := s.threads[t].machine, s.threads[u].machine;
    i != j ==>
      && (SawIdle(s.threads[t].pc, j) ==> WillExceed(s, u, i))
      && (s.threads[t].pc == Wait3(j) && HasTicket(s.threads[u].pc) ==> s.number[i] <= s.number[j])
      && (Passed(s.threads[t].pc, j) && HasTicket(s.threads[u].pc) ==> Smaller(s.number[i], i, s.number[j], j))
  }

  /** Thread `u` started to choose when machine `i` had its ticket: until machine `i` gives it back, the
      ticket of `u` is or will be above it. */
  predicate QueueOk(s: State, u: Tid, i: Machine)
    requires Shape(s) && u < |s.threads|
  {
    var U := s.threads[u];
    Inside(U.pc) && !U.pc.SetChoosing? && !U.pc.ReleaseLocal? && i in U.ahead && i < |s.number| ==>
      && i != U.machine
      && U.ahead[i] <= s.turn[i]
      && (U.ahead[i] == s.turn[i] ==>
            && s.number[i] != 0 && !s.choosing[i]
            && WillExceed(s, u, i)
            && (HasTicket(U.pc) ==> s.number[i] < s.number[U.machine]))
  }

  ghost predicate Inv(s: State) {
    && Shape(s)
    && (forall t :: 0 <= t < |s.threads| ==> ThreadOk(s, t))
    && (forall m :: 0 <= m < |s.number| ==> MachineOk(s, m))
    && (forall t, u :: 0 <= t < |s.threads| && 0 <= u < |s.threads| ==> PairOk(s, t, u))
    && (forall u, i :: 0 <= u < |s.threads| && 0 <= i < |s.number| ==> QueueOk(s, u, i))
  }

  lemma InvInit(s: State)
    requires Init(s)
    ensures Inv(s)
  {
  }

  lemma FrameThreads(s: State, s': State, t: Tid)
    requires Next(s, s', t)
    ensures Shape(s') && |s'.number| == |s.number| && |s'.threads| == |s.threads|
    ensures s'.threads == s.threads[t := s'.threads[t]] && s'.threads[t].machine == s.threads[t].machine
  {
  }

  /** A step touches the words of its own machine only. */
  lemma Frame(s: State, s': State, t: Tid)
    requires Next(s, s', t)
    ensures Shape(s') && |s'.number| == |s.number| && |s'.threads| == |s.threads|
    ensures s'.threads[t].machine == s.threads[t].machine
    ensures forall u :: 0 <= u < |s.threads| && u != t ==> s'.threads[u] == s.threads[u]
    ensures forall m :: 0 <= m < |s.number| && m != s.threads[t].machine ==>
              && s'.number[m] == s.number[m] && s'.choosing[m] == s.choosing[m]
              && s'.localLock[m] == s.localLock[m] && s'.turn[m] == s.turn[m]
  {
    FrameThreads(s, s', t);
  }

  lemma SelfStep(s: State, s': State, t: Tid)
    requires Inv(s) && Next(s, s', t) && Shape(s') && |s'.threads| == |s.threads|
    ensures ThreadOk(s', t) && MachineOk(s', s'.threads[t].machine)
  {
    assert ThreadOk(s, t) && MachineOk(s, s.threads[t].machine);
  }

  lemma LocalStep(s: State, s': State, t: Tid)
    requires Inv(s) && Next(s, s', t)
    ensures Shape(s') && |s'.threads| == |s.threads| && |s'.number| == |s.number|
    ensures forall u :: 0 <= u < |s'.threads| ==> ThreadOk(s', u)
    ensures forall m :: 0 <= m < |s'.number| ==> MachineOk(s', m)
  {
    Frame(s, s', t);
    SelfStep(s, s', t);
    assert ThreadOk(s, t) && MachineOk(s, s.threads[t].machine);
    forall u | 0 <= u < |s'.threads| && u != t ensures ThreadOk(s', u) {
      OtherStep(s, s', t, u);
    }
    forall m | 0 <= m < |s'.number| && m != s.threads[t].machine ensures MachineOk(s', m) {
      assert MachineOk(s, m);
    }
  }

  /** Another thread of the same machine is outside, and so not concerned. */
  lemma OtherStep(s: State, s': State, t: Tid, u: Tid)
    requires Inv(s) && Next(s, s', t) && Shape(s') && |s'.threads| == |s.threads|
    requires u < |s.threads| && u != t
    ensures ThreadOk(s', u)
  {
    Frame(s, s', t);
    assert ThreadOk(s, t) && ThreadOk(s, u);
  }

  /** The thread is in the waiting loop. */
  predicate Waiting(pc: Pc) {
    pc.WaitChoosing? || pc.Wait1? || pc.Wait2? || pc.Wait3?
  }

  lemma PairWaiting(s: State, s': State, t: Tid, w: Tid)
    requires Inv(s) && Next(s, s', t) && Shape(s') && |s'.threads| == |s.threads|
    requires w < |s.threads| && w != t && Waiting(s.threads[t].pc)
    ensures PairOk(s', t, w)
  {
    assert ThreadOk(s, t) && ThreadOk(s, w) && PairOk(s, t, w);
    assert s' == Goto(s, t, s'.threads[t].pc);
  }

  lemma PairFirst(s: State, s': State, t: Tid, w: Tid)
    requires Inv(s) && Next(s, s', t) && Shape(s') && |s'.threads| == |s.threads|
    requires w < |s.threads| && w != t
    ensures PairOk(s', t, w)
  {
    if Waiting(s.threads[t].pc) {
      PairWaiting(s, s', t, w);
    } else {
      var pc := s'.threads[t].pc;
      assert pc == WaitChoosing(0) || (!Waiting(pc) && !pc.Critical?);
    }
  }

  lemma PairSecond(s: State, s': State, t: Tid, u: Tid)
    requires Next(s, s', t) && Shape(s') && |s'.threads| == |s.threads|
    requires u < |s.threads| && u != t && ThreadOk(s, u) && ThreadOk(s, t) && PairOk(s, u, t)
    ensures PairOk(s', u, t)
  {
    if Waiting(s.threads[t].pc) {
      PairSecondWaiting(s, s', t, u);
    } else {
      Frame(s, s', t);
    }
  }

  lemma PairSecondWaiting(s: State, s': State, t: Tid, u: Tid)
    requires Next(s, s', t) && Shape(s') && |s'.threads| == |s.threads| && Waiting(s.threads[t].pc)
    requires u < |s.threads| && u != t && ThreadOk(s, u) && ThreadOk(s, t) && PairOk(s, u, t)
    ensures PairOk(s', u, t)
  {
    assert s' == Goto(s, t, s'.threads[t].pc);
  }

  lemma PairFrame(s: State, s': State, t: Tid, u: Tid, w: Tid)
    requires Next(s, s', t) && Shape(s') && |s'.threads| == |s.threads|
    requires u < |s.threads| && w < |s.threads| && t != u && t != w
    requires ThreadOk(s, t) && ThreadOk(s, u) && ThreadOk(s, w) && PairOk(s, u, w)
    ensures PairOk(s', u, w)
  {
    Frame(s, s', t);
  }

  lemma QueueSelf(s: State, s': State, t: Tid, i: Machine)
    requires Next(s, s', t) && Shape(s') && i < |s.number| && ThreadOk(s, t) && QueueOk(s, t, i)
    ensures t < |s'.threads| && QueueOk(s', t, i)
  {
    Frame(s, s', t);
  }

  lemma QueueOther(s: State, s': State, t: Tid, u: Tid, i: Machine)
    requires Next(s, s', t) && Shape(s') && i < |s.number| && u < |s.threads| && u != t
    requires ThreadOk(s, t) && ThreadOk(s, u) && QueueOk(s, u, i)
    ensures u < |s'.threads| && QueueOk(s', u, i)
  {
    Frame(s, s', t);
  }

  lemma InvStep(s: State, s': State, t: Tid)
    requires Inv(s) && Next(s, s', t)
    ensures Inv(s')
  {
    LocalStep(s, s', t);
    assert forall u :: 0 <= u < |s.threads| ==> ThreadOk(s, u);
    forall u, w | 0 <= u < |s'.threads| && 0 <= w < |s'.threads| ensures PairOk(s', u, w) {
      if u == w {
      } else if t == u {
        PairFirst(s, s', t, w);
      } else if t == w {
        PairSecond(s, s', t, u);
      } else {
        PairFrame(s, s', t, u, w);
      }
    }
    forall u, i | 0 <= u < |s'.threads| && 0 <= i < |s'.number| ensures QueueOk(s', u, i) {
      if u == t {
        QueueSelf(s, s', t, i);
      } else {
        QueueOther(s, s', t, u, i);
      }
    }
  }

  lemma {:induction false} InvRun(run: seq<State>, n: nat)
    requires Run(run) && n < |run|
    ensures Inv(run[n])
  {
    if n == 0 {
      InvInit(run[0]);
    } else {
      InvRun(run, n - 1);
      assert Stepped(run, n - 1);
      var t :| Next(run[n - 1], run[n], t);
      InvStep(run[n - 1], run[n], t);
    }
  }

  /** Mutual exclusion: in every state of every run, for any number of machines and of threads on each,
      at most one thread is in the critical section. */
  lemma MutualExclusion(run: seq<State>, n: nat, t: Tid, u: Tid)
    requires Run(run) && n < |run| && t < |run[n].threads| && u < |run[n].threads|
    requires run[n].threads[t].pc == Critical && run[n].threads[u].pc == Critical
    ensures t == u
  {
    InvRun(run, n);
    var s := run[n];
    assert ThreadOk(s, t) && ThreadOk(s, u) && PairOk(s, t, u) && PairOk(s, u, t);
  }

  /** First come, first served: when a thread is in the critical section, every machine that had its
      ticket before the thread started to choose has completed that turn. */
  lemma FirstComeFirstServed(run: seq<State>, n: nat, u: Tid)
    requires Run(run) && n < |run| && u < |run[n].threads|
    requires run[n].threads[u].pc == Critical
    ensures Shape(run[n])
    ensures forall i :: i in run[n].threads[u].ahead && i < |run[n].number| ==>
        run[n].threads[u].ahead[i] < run[n].turn[i]
  {
    InvRun(run, n);
    var s := run[n];
    forall i | i in s.threads[u].ahead && i < |s.number| ensures s.threads[u].ahead[i] < s.turn[i] {
      assert ThreadOk(s, u) && QueueOk(s, u, i) && MachineOk(s, i);
      if s.localLock[i].Some? {
        var t := s.localLock[i].value;
        assert ThreadOk(s, t) && PairOk(s, u, t);
      }
    }
  }

  // ---- Deadlock ----

  /** The next shared read of the thread sends it round its loop again, however often it is repeated
      while the others stand still. */
  predicate Blocked(s: State, t: Tid)
    requires Shape(s) && t < |s.threads|
  {
    var id := s.threads[t].machine;
    match s.threads[t].pc
    case WaitChoosing(j) => j < |s.number| && s.choosing[j]
    case Wait1(j) => j < |s.number| && s.number[j] != 0 && Smaller(s.number[j], j, s.number[id], id)
    case Wait2(j) => j < |s.number| && s.number[j] != 0 && Smaller(s.number[j], j, s.number[id], id)
    case Wait3(j) => j < |s.number| && s.number[j] != 0 && Smaller(s.number[j], j, s.number[id], id)
    case _ => false
  }

  /** Some thread with a ticket has one that is not above those of the first `n` machines. */
  lemma {:induction false} LeastTicket(s: State, m: Machine, n: nat) returns (k: Machine)
    requires Shape(s) && m < |s.number| && s.number[m] != 0 && n <= |s.number|
    ensures k < |s.number| && s.number[k] != 0
    ensures k == m || Smaller(s.number[k], k, s.number[m], m)
    ensures forall j :: 0 <= j < n && s.number[j] != 0 ==> !Smaller(s.number[j], j, s.number[k], k)
  {
    if n == 0 {
      k := m;
    } else {
      k := LeastTicket(s, m, n - 1);
      if s.number[n - 1] != 0 && Smaller(s.number[n - 1], n - 1, s.number[k], k) {
        k := n - 1;
      }
    }
  }

  /** No deadlock: as long as some thread is between locking and unlocking, one of them is not blocked. */
  lemma DeadlockFreedom(run: seq<State>, n: nat, t: Tid) returns (u: Tid)
    requires Run(run) && n < |run| && t < |run[n].threads| && Inside(run[n].threads[t].pc)
    ensures Shape(run[n]) && u < |run[n].threads| && Inside(run[n].threads[u].pc) && !Blocked(run[n], u)
  {
    InvRun(run, n);
    var s := run[n];
    u := t;
    assert ThreadOk(s, t);
    if Blocked(s, t) {
      var j := s.threads[t].pc.j;
      if s.choosing[j] {
        assert MachineOk(s, j);
        u := s.localLock[j].value;
        assert ThreadOk(s, u);
      } else {
        var k := LeastTicket(s, j, |s.number|);
        assert MachineOk(s, k);
        u := s.localLock[k].value;
        assert ThreadOk(s, u);
        if s.threads[u].pc.WaitChoosing? && s.choosing[s.threads[u].pc.j] {
          assert MachineOk(s, s.threads[u].pc.j);
          u := s.localLock[s.threads[u].pc.j].value;
          assert ThreadOk(s, u);
        }
      }
    }
  }
}
