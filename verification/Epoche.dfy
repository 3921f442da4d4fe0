/** Epoch-based reclamation: threads enter and leave critical sections, unlink nodes from the shared
    structure, mark them for deletion, and free the marked nodes of old epochs when they leave.  A step
    is one access to `currentEpoche`, to one `localEpoche` or to the structure, or the freeing of one
    node.  `holders` and `status` record the history of the run; no step reads them. */
module Epoche {
  import opened EpocheList

  type Tid = nat

  /** Where a thread is.  `Entering` has read the global epoch but not announced it; `Exit` is the start
      of `exitEpocheAndCleanup`; `Scan` reads the epochs the threads announce; `Sweep` stands before node
      `i` of the label at position `k`. */
  datatype Pc =
    | Outside
    | Entering(readonly: bool, e: nat)
    | Inside(readonly: bool)
    | Marking(n: Node, e: nat)
    | Exit
    | Threshold
    | Retire
    | Scan(u: nat, oldest: Epoch)
    | Sweep(oldest: Epoch, k: nat, i: nat)

  datatype Thread = Thread(
    pc: Pc,
    localEpoche: Epoch,
    labels: seq<Label>,
    thresholdCounter: nat,
    added: nat,
    deleted: nat)

  /** What has become of a node. */
  datatype Status = Linked | Unlinked(owner: Tid) | Marked(owner: Tid) | Gone

  datatype State = State(
    currentEpoche: nat,
    startGCThreshold: nat,
    threads: seq<Thread>,
    status: map<Node, Status>,
    holders: map<Node, set<Tid>>)

  predicate Init(s: State) {
    && (forall t :: 0 <= t < |s.threads| ==> s.threads[t] == Thread(Outside, At(0), [], 0, 0, 0))
    && s.holders == map[]
    && (forall n :: n in s.status ==> s.status[n] == Linked)
  }

  /** The thread may hold references into the structure. */
  predicate InSection(pc: Pc) {
    pc.Inside? || pc.Marking?
  }

  function Sectioned(s: State): set<Tid> {
    set t | 0 <= t < |s.threads| && InSection(s.threads[t].pc)
  }

  function Set(s: State, t: Tid, T: Thread): State
    requires t < |s.threads|
  {
    s.(threads := s.threads[t := T])
  }

  function Goto(s: State, t: Tid, pc: Pc): State
    requires t < |s.threads|
  {
    Set(s, t, s.threads[t].(pc := pc))
  }

  /** Thread `t` drops its references: it is nobody's holder any more. */
  function Leave(holders: map<Node, set<Tid>>, t: Tid): map<Node, set<Tid>> {
    map n | n in holders :: holders[n] - {t}
  }

  function Min(o: Epoch, e: Epoch): Epoch {
    if e.At? && (o.Max? || e.n < o.n) then e else o
  }

  datatype Step =
    | Enter(ro: bool) | Announce | Insert(n: Node) | Unlink(n: Node) | LoadForMark(n: Node) | AddMark
    | LeaveReadonly | LeaveStart | Bump | CheckThreshold | AnnounceMax | ScanOne | SweepOne | Quit

  predicate Next(s: State, s': State, t: Tid, step: Step) {
    && t < |s.threads|
    && var T := s.threads[t];
       match step
       case Enter(ro) => T.pc == Outside && s' == Goto(s, t, Entering(ro, s.currentEpoche))
       case Announce =>
         T.pc.Entering? && s' == Set(s, t, T.(pc := Inside(T.pc.readonly), localEpoche := At(T.pc.e)))
       case Insert(n) =>
         T.pc == Inside(false) && n !in s.status && s' == s.(status := s.status[n := Linked])
       case Unlink(n) =>
         && T.pc == Inside(false) && n in s.status && s.status[n] == Linked
         && s' == s.(status := s.status[n := Unlinked(t)], holders := s.holders[n := Sectioned(s)])
       case LoadForMark(n) =>
         && T.pc == Inside(false) && n in s.status && s.status[n] == Unlinked(t)
         && s' == Goto(s, t, Marking(n, s.currentEpoche))
       case AddMark =>
         && T.pc.Marking?
         && s' == Set(s, t, T.(pc := Inside(false), labels := Add(T.labels, T.pc.n, T.pc.e),
                               thresholdCounter := T.thresholdCounter + 1, added := T.added + 1))
                  .(status := s.status[T.pc.n := Marked(t)])
       case LeaveReadonly =>
         T.pc == Inside(true) && s' == Goto(s, t, Outside).(holders := Leave(s.holders, t))
       case LeaveStart =>
         T.pc == Inside(false) && s' == Goto(s, t, Exit).(holders := Leave(s.holders, t))
       case Bump =>
         T.pc == Exit &&
         s' == Goto(s, t, Threshold)
               .(currentEpoche := if T.thresholdCounter % 64 == 1 then s.currentEpoche + 1 else s.currentEpoche)
       case CheckThreshold =>
         T.pc == Threshold &&
         s' == if T.thresholdCounter <= s.startGCThreshold then Goto(s, t, Outside)
               else if Count(T.labels) == 0 then Set(s, t, T.(pc := Outside, thresholdCounter := 0))
               else Goto(s, t, Retire)
       case AnnounceMax => T.pc == Retire && s' == Set(s, t, T.(pc := Scan(0, Max), localEpoche := Max))
       case ScanOne =>
         T.pc.Scan? &&
         s' == Goto(s, t, if T.pc.u < |s.threads| then Scan(T.pc.u + 1, Min(T.pc.oldest, s.threads[T.pc.u].localEpoche))
                          else Sweep(T.pc.oldest, 0, 0))
       case SweepOne =>
         && T.pc.Sweep?
         && var Sweep(oldest, k, i) := T.pc;
            if k >= |T.labels| then s' == Set(s, t, T.(pc := Outside, thresholdCounter := 0))
            else if !Older(T.labels[k].epoche, oldest) then s' == Goto(s, t, Sweep(oldest, k + 1, 0))
            else if i < |T.labels[k].nodes| then
              s' == Goto(s, t, Sweep(oldest, k, i + 1)).(status := s.status[T.labels[k].nodes[i] := Gone])
            else
              s' == Set(s, t, T.(pc := Sweep(oldest, k, 0), labels := Without(T.labels, k),
                                 deleted := T.deleted + |T.labels[k].nodes|))
       case Quit => T.pc == Outside && s' == Set(s, t, T.(localEpoche := Max))
  }

  /** The step frees node `n`. */
  predicate Frees(s: State, s': State, t: Tid, step: Step, n: Node) {
    && Next(s, s', t, step)
    && step.SweepOne?
    && var T := s.threads[t];
       && T.pc.k < |T.labels| && Older(T.labels[T.pc.k].epoche, T.pc.oldest)
       && T.pc.i < |T.labels[T.pc.k].nodes| && n == T.labels[T.pc.k].nodes[T.pc.i]
  }

  ghost predicate Moved(s: State, s': State) {
    exists t, step :: Next(s, s', t, step)
  }

  ghost predicate Stepped(run: seq<State>, i: nat)
    requires i + 1 < |run|
  {
    Moved(run[i], run[i + 1])
  }

  ghost predicate Run(run: seq<State>) {
    && |run| > 0
    && Init(run[0])
    && forall i: nat :: i + 1 < |run| ==> Stepped(run, i)
  }

  // ---- Epochs ----

  /** Thread `u` entered no later than epoch `e`. */
  predicate EnteredBy(s: State, u: Tid, e: nat) {
    u < |s.threads| && InSection(s.threads[u].pc) && s.threads[u].localEpoche.At? && s.threads[u].localEpoche.n <= e
  }

  /** Everyone who may still hold `n` entered no later than epoch `e`. */
  predicate HeldSince(s: State, n: Node, e: nat) {
    n in s.holders && forall u :: u in s.holders[n] ==> EnteredBy(s, u, e)
  }

  /** The node at position `q` of label `p` of thread `T` has not been freed yet. */
  predicate Live(T: Thread, p: nat, q: nat) {
    && p < |T.labels| && q < |T.labels[p].nodes|
    && !(T.pc.Sweep? && p == T.pc.k && q < T.pc.i)
  }

  /** `oldest` is not above the epoch of any of the first `m` threads that may still hold `n`. */
  predicate ScannedTo(s: State, n: Node, m: nat, oldest: Epoch) {
    n in s.holders &&
    forall u :: u in s.holders[n] && u < m && u < |s.threads| ==>
      oldest.At? && s.threads[u].localEpoche.At? && oldest.n <= s.threads[u].localEpoche.n
  }

  /** How many threads the cleanup of `T` has scanned, and what it has found. */
  function Scanned(T: Thread, all: nat): nat {
    if T.pc.Scan? then T.pc.u else if T.pc.Sweep? then all else 0
  }

  function Oldest(T: Thread): Epoch {
    if T.pc.Scan? || T.pc.Sweep? then T.pc.oldest else Max
  }

  predicate NodeOk(s: State, t: Tid, p: nat, q: nat)
    requires t < |s.threads| && p < |s.threads[t].labels| && q < |s.threads[t].labels[p].nodes|
  {
    var T := s.threads[t];
    var n := T.labels[p].nodes[q];
    && n in s.status && s.status[n] == Marked(t)
    && HeldSince(s, n, T.labels[p].epoche)
    && ScannedTo(s, n, Scanned(T, |s.threads|), Oldest(T))
  }

  ghost predicate Distinct(T: Thread) {
    forall p: nat, q: nat, p': nat, q': nat ::
      Live(T, p, q) && Live(T, p', q') && T.labels[p].nodes[q] == T.labels[p'].nodes[q'] ==> p == p' && q == q'
  }

  /** A sweep frees nodes of labels that are old enough only. */
  predicate SweepOk(T: Thread) {
    T.pc.Sweep? && T.pc.i > 0 ==>
      T.pc.k < |T.labels| && T.pc.i <= |T.labels[T.pc.k].nodes| && Older(T.labels[T.pc.k].epoche, T.pc.oldest)
  }

  ghost predicate ThreadOk(s: State, t: Tid)
    requires t < |s.threads|
  {
    var T := s.threads[t];
    && (T.pc.Entering? ==> T.pc.e <= s.currentEpoche)
    && (InSection(T.pc) ==> T.localEpoche.At? && T.localEpoche.n <= s.currentEpoche)
    && (T.pc.Marking? ==>
          && T.pc.n in s.status && s.status[T.pc.n] == Unlinked(t)
          && T.pc.e <= s.currentEpoche && HeldSince(s, T.pc.n, T.pc.e))
    && (T.pc.Scan? ==> T.pc.u <= |s.threads|)
    && SweepOk(T)
    && T.added == T.deleted + Count(T.labels)
    && (forall p :: 0 <= p < |T.labels| ==> T.labels[p].epoche <= if T.pc.Marking? then T.pc.e else s.currentEpoche)
    && Distinct(T)
    && forall p: nat, q: nat :: Live(T, p, q) ==> NodeOk(s, t, p, q)
  }

  /** An unlinked node is held by nobody who entered after the current epoch. */
  predicate UnlinkedOk(s: State, n: Node)
    requires n in s.status
  {
    s.status[n].Unlinked? ==> HeldSince(s, n, s.currentEpoche)
  }

  predicate HoldersOk(s: State, n: Node)
    requires n in s.holders
  {
    forall u :: u in s.holders[n] ==> u < |s.threads| && InSection(s.threads[u].pc)
  }

  ghost predicate Inv(s: State) {
    && (forall t :: 0 <= t < |s.threads| ==> ThreadOk(s, t))
    && (forall n :: n in s.status ==> UnlinkedOk(s, n))
    && (forall n :: n in s.holders ==> n in s.status && s.status[n] != Linked)
    && (forall n :: n in s.holders ==> HoldersOk(s, n))
  }

  lemma InvInit(s: State)
    requires Init(s)
    ensures Inv(s)
  {
  }

  /** Only thread `t` moves; its label list and counters change only when it adds a mark or sweeps. */
  lemma Frame(s: State, s': State, t: Tid, step: Step)
    requires Next(s, s', t, step)
    ensures |s'.threads| == |s.threads| && s.currentEpoche <= s'.currentEpoche
    ensures forall u :: 0 <= u < |s.threads| && u != t ==> s'.threads[u] == s.threads[u]
    ensures InSection(s.threads[t].pc) && InSection(s'.threads[t].pc) ==>
        s'.threads[t].localEpoche == s.threads[t].localEpoche
    ensures !step.AddMark? && !step.SweepOne? ==>
              s'.threads[t].labels == s.threads[t].labels && s'.threads[t].added == s.threads[t].added &&
                  s'.threads[t].deleted == s.threads[t].deleted
    ensures !step.SweepOne? ==> !s.threads[t].pc.Sweep?
  {
  }

  /** The holders of a node that is unlinked already only leave. */
  lemma HoldersShrink(s: State, s': State, t: Tid, step: Step, n: Node)
    requires Next(s, s', t, step) && n in s.holders
    requires n in s.status && s.status[n] != Linked
    ensures n in s'.holders && s'.holders[n] <= s.holders[n]
    ensures !InSection(s'.threads[t].pc) && InSection(s.threads[t].pc) ==> t !in s'.holders[n]
  {
  }

  lemma HeldSinceStep(s: State, s': State, t: Tid, step: Step, n: Node, e: nat)
    requires Next(s, s', t, step) && HeldSince(s, n, e) && n in s.status && s.status[n] != Linked
    ensures HeldSince(s', n, e)
  {
    Frame(s, s', t, step);
    HoldersShrink(s, s', t, step, n);
    forall u | u in s'.holders[n] ensures EnteredBy(s', u, e) {
      assert EnteredBy(s, u, e);
    }
  }

  lemma ScannedToStep(s: State, s': State, t: Tid, step: Step, n: Node, m: nat, oldest: Epoch, e: nat)
    requires Next(s, s', t, step) && HeldSince(s, n, e) && ScannedTo(s, n, m, oldest) && n in s.status
    requires s.status[n] != Linked
    ensures ScannedTo(s', n, m, oldest)
  {
    Frame(s, s', t, step);
    HoldersShrink(s, s', t, step, n);
    forall u | u in s'.holders[n] && u < m && u < |s'.threads|
      ensures oldest.At? && s'.threads[u].localEpoche.At? && oldest.n <= s'.threads[u].localEpoche.n
    {
      assert EnteredBy(s, u, e);
    }
  }

  /** A marked node of thread `t` is touched by no other thread. */
  lemma MarkedStays(s: State, s': State, t: Tid, step: Step, o: Tid, n: Node)
    requires Inv(s) && Next(s, s', t, step) && o != t
    requires n in s.status && (s.status[n] == Marked(o) || s.status[n] == Unlinked(o))
    ensures n in s'.status && s'.status[n] == s.status[n]
  {
    assert ThreadOk(s, t);
    if step.SweepOne? && s'.status != s.status {
      assert Live(s.threads[t], s.threads[t].pc.k, s.threads[t].pc.i);
    }
  }

  lemma OtherStep(s: State, s': State, t: Tid, step: Step, o: Tid)
    requires Inv(s) && Next(s, s', t, step) && o < |s.threads| && o != t
    ensures |s'.threads| == |s.threads| && ThreadOk(s', o)
  {
    Frame(s, s', t, step);
    var T := s.threads[o];
    assert ThreadOk(s, o);
    if T.pc.Marking? {
      MarkedStays(s, s', t, step, o, T.pc.n);
      HeldSinceStep(s, s', t, step, T.pc.n, T.pc.e);
    }
    forall p: nat, q: nat | Live(T, p, q) ensures NodeOk(s', o, p, q) {
      assert NodeOk(s, o, p, q);
      var n := T.labels[p].nodes[q];
      MarkedStays(s, s', t, step, o, n);
      HeldSinceStep(s, s', t, step, n, T.labels[p].epoche);
      ScannedToStep(s, s', t, step, n, Scanned(T, |s.threads|), Oldest(T), T.labels[p].epoche);
    }
  }

  /** A step of `t` that leaves its list alone: only a scan learns something about the nodes in it. */
  lemma SelfNode(s: State, s': State, t: Tid, step: Step, p: nat, q: nat)
    requires Inv(s) && Next(s, s', t, step) && !step.AddMark? && !step.SweepOne?
    requires Live(s.threads[t], p, q)
    ensures |s'.threads| == |s.threads| && Live(s'.threads[t], p, q) && NodeOk(s', t, p, q)
  {
    Frame(s, s', t, step);
    var T, T' := s.threads[t], s'.threads[t];
    assert ThreadOk(s, t) && NodeOk(s, t, p, q);
    var n := T.labels[p].nodes[q];
    HeldSinceStep(s, s', t, step, n, T.labels[p].epoche);
    if step.ScanOne? && T.pc.u < |s.threads| {
      ScanLearns(s, s', t, n, T.labels[p].epoche);
    } else if T'.pc.Scan? || T'.pc.Sweep? {
      ScannedToStep(s, s', t, step, n, Scanned(T, |s.threads|), Oldest(T), T.labels[p].epoche);
    }
  }

  lemma ScanLearns(s: State, s': State, t: Tid, n: Node, e: nat)
    requires Next(s, s', t, ScanOne) && s.threads[t].pc.Scan? && s.threads[t].pc.u < |s.threads|
    requires HeldSince(s, n, e) && ScannedTo(s, n, s.threads[t].pc.u, s.threads[t].pc.oldest)
    ensures ScannedTo(s', n, s'.threads[t].pc.u, s'.threads[t].pc.oldest)
  {
    forall u | u in s'.holders[n] && u < s'.threads[t].pc.u && u < |s'.threads|
      ensures s'.threads[t].pc.oldest.At? && s'.threads[u].localEpoche.At?
      ensures s'.threads[t].pc.oldest.n <= s'.threads[u].localEpoche.n
    {
      assert EnteredBy(s, u, e);
    }
  }

  lemma SelfQuiet(s: State, s': State, t: Tid, step: Step)
    requires Inv(s) && Next(s, s', t, step) && !step.AddMark? && !step.SweepOne?
    ensures t < |s'.threads| && ThreadOk(s', t)
  {
    Frame(s, s', t, step);
    var T, T' := s.threads[t], s'.threads[t];
    assert ThreadOk(s, t);
    forall p: nat, q: nat | Live(T', p, q) ensures NodeOk(s', t, p, q) {
      assert Live(T, p, q);
      SelfNode(s, s', t, step, p, q);
    }
    if step.LoadForMark? {
      assert UnlinkedOk(s, step.n);
      HeldSinceStep(s, s', t, step, step.n, s.currentEpoche);
    }
    assert Distinct(T') by {
      forall p: nat, q: nat, p': nat, q': nat | Live(T', p, q) && Live(T', p', q') &&
          T'.labels[p].nodes[q] == T'.labels[p'].nodes[q'] ensures p == p' && q == q' {
        assert Live(T, p, q) && Live(T, p', q');
      }
    }
  }

  /** The node just added is the only one of a new label, or the last of the head label. */
  predicate AddedAt(ls: seq<Label>, p: nat, q: nat) {
    p == 0 && q == if ls != [] && |ls[0].nodes| < LABEL_CAPACITY then |ls[0].nodes| else 0
  }

  lemma AddPositions(ls: seq<Label>, n: Node, e: nat, p: nat, q: nat)
    requires p < |Add(ls, n, e)| && q < |Add(ls, n, e)[p].nodes|
    ensures var ls' := Add(ls, n, e);
            if AddedAt(ls, p, q) then ls'[p].nodes[q] == n && ls'[p].epoche == e
            else
              var p0 := if |ls'| == |ls| then p else p - 1;
              && 0 <= p0 < |ls| && q < |ls[p0].nodes|
              && ls'[p].nodes[q] == ls[p0].nodes[q]
              && (ls'[p].epoche == ls[p0].epoche || ls'[p].epoche == e)
  {
  }

  lemma AddMarkNode(s: State, s': State, t: Tid, p: nat, q: nat)
    requires Inv(s) && Next(s, s', t, AddMark) && Live(s'.threads[t], p, q)
    ensures |s'.threads| == |s.threads| && NodeOk(s', t, p, q)
  {
    Frame(s, s', t, AddMark);
    var T, T' := s.threads[t], s'.threads[t];
    assert ThreadOk(s, t);
    AddPositions(T.labels, T.pc.n, T.pc.e, p, q);
    if AddedAt(T.labels, p, q) {
      HeldSinceStep(s, s', t, AddMark, T.pc.n, T.pc.e);
    } else {
      var p0 := if |T'.labels| == |T.labels| then p else p - 1;
      assert Live(T, p0, q) && NodeOk(s, t, p0, q);
      HeldSinceStep(s, s', t, AddMark, T.labels[p0].nodes[q], T.labels[p0].epoche);
    }
  }

  lemma AddMarkWhere(s: State, s': State, t: Tid, p: nat, q: nat)
    requires Inv(s) && Next(s, s', t, AddMark) && Live(s'.threads[t], p, q)
    ensures var T, T' := s.threads[t], s'.threads[t];
            var n := T'.labels[p].nodes[q];
            if AddedAt(T.labels, p, q) then n == T.pc.n
            else
              var p0 := if |T'.labels| == |T.labels| then p else p - 1;
              p0 >= 0 && Live(T, p0, q) && n == T.labels[p0].nodes[q] && n != T.pc.n
  {
    var T, T' := s.threads[t], s'.threads[t];
    assert ThreadOk(s, t);
    AddPositions(T.labels, T.pc.n, T.pc.e, p, q);
    if !AddedAt(T.labels, p, q) {
      var p0 := if |T'.labels| == |T.labels| then p else p - 1;
      assert Live(T, p0, q) && NodeOk(s, t, p0, q);
    }
  }

  lemma AddMarkDistinct(s: State, s': State, t: Tid)
    requires Inv(s) && Next(s, s', t, AddMark)
    ensures t < |s'.threads| && Distinct(s'.threads[t])
  {
    var T, T' := s.threads[t], s'.threads[t];
    assert Distinct(T) by { assert ThreadOk(s, t); }
    forall p: nat, q: nat, p': nat, q': nat | Live(T', p, q) && Live(T', p', q') &&
        T'.labels[p].nodes[q] == T'.labels[p'].nodes[q']
      ensures p == p' && q == q'
    {
      AddMarkWhere(s, s', t, p, q);
      AddMarkWhere(s, s', t, p', q');
    }
  }

  lemma SelfAddMark(s: State, s': State, t: Tid)
    requires Inv(s) && Next(s, s', t, AddMark)
    ensures t < |s'.threads| && ThreadOk(s', t)
  {
    Frame(s, s', t, AddMark);
    assert ThreadOk(s, t);
    AddMarkDistinct(s, s', t);
    forall p: nat, q: nat | Live(s'.threads[t], p, q) ensures NodeOk(s', t, p, q) {
      AddMarkNode(s, s', t, p, q);
    }
  }

  /** Where the label at position `p` was before the sweep removed the one at `k`. */
  function Shifted(T: Thread, T': Thread, p: nat): nat {
    if |T'.labels| < |T.labels| && T.pc.Sweep? && p >= T.pc.k then p + 1 else p
  }

  lemma SweepPositions(s: State, s': State, t: Tid, p: nat, q: nat)
    requires Next(s, s', t, SweepOne) && t < |s'.threads| && Live(s'.threads[t], p, q) && SweepOk(s.threads[t])
    ensures var T, T' := s.threads[t], s'.threads[t];
            && Live(T, Shifted(T, T', p), q)
            && T.labels[Shifted(T, T', p)] == T'.labels[p]
            && (Frees(s, s', t, SweepOne, T'.labels[p].nodes[q]) ==> !(p == T.pc.k && q == T.pc.i))
  {
  }

  lemma SweepNode(s: State, s': State, t: Tid, p: nat, q: nat)
    requires Inv(s) && Next(s, s', t, SweepOne) && t < |s'.threads| && Live(s'.threads[t], p, q)
    ensures |s'.threads| == |s.threads| && NodeOk(s', t, p, q)
  {
    Frame(s, s', t, SweepOne);
    var T, T' := s.threads[t], s'.threads[t];
    assert ThreadOk(s, t);
    SweepPositions(s, s', t, p, q);
    var p0 := Shifted(T, T', p);
    assert NodeOk(s, t, p0, q);
    var n, e := T'.labels[p].nodes[q], T'.labels[p].epoche;
    HeldSinceStep(s, s', t, SweepOne, n, e);
    ScannedToStep(s, s', t, SweepOne, n, Scanned(T, |s.threads|), Oldest(T), e);
    if s'.status != s.status {
      assert Live(T, T.pc.k, T.pc.i);
    }
  }

  lemma SelfSweep(s: State, s': State, t: Tid)
    requires Inv(s) && Next(s, s', t, SweepOne)
    ensures t < |s'.threads| && ThreadOk(s', t)
  {
    Frame(s, s', t, SweepOne);
    var T, T' := s.threads[t], s'.threads[t];
    assert ThreadOk(s, t);
    forall p: nat, q: nat | Live(T', p, q) ensures NodeOk(s', t, p, q) {
      SweepNode(s, s', t, p, q);
    }
    forall p: nat, q: nat, p': nat, q': nat | Live(T', p, q) && Live(T', p', q') &&
        T'.labels[p].nodes[q] == T'.labels[p'].nodes[q']
      ensures p == p' && q == q'
    {
      SweepPositions(s, s', t, p, q);
      SweepPositions(s, s', t, p', q');
    }
  }

  lemma HolderStep(s: State, s': State, t: Tid, step: Step, n: Node, u: Tid)
    requires Inv(s) && Next(s, s', t, step) && n in s'.holders && u in s'.holders[n]
    ensures u < |s'.threads| && InSection(s'.threads[u].pc)
  {
    Frame(s, s', t, step);
    if step == Unlink(n) {
      assert u in Sectioned(s);
    } else {
      assert n in s.holders && n in s.status && s.status[n] != Linked;
      HoldersShrink(s, s', t, step, n);
      assert HoldersOk(s, n);
    }
  }

  lemma GlobalStep(s: State, s': State, t: Tid, step: Step)
    requires Inv(s) && Next(s, s', t, step)
    ensures forall n :: n in s'.status ==> UnlinkedOk(s', n)
    ensures forall n :: n in s'.holders ==> n in s'.status && s'.status[n] != Linked
    ensures forall n :: n in s'.holders ==> HoldersOk(s', n)
  {
    Frame(s, s', t, step);
    assert ThreadOk(s, t);
    forall n | n in s'.status && s'.status[n].Unlinked? ensures HeldSince(s', n, s'.currentEpoche) {
      if n in s.status && s.status[n].Unlinked? {
        assert UnlinkedOk(s, n);
        HeldSinceStep(s, s', t, step, n, s.currentEpoche);
      } else {
        assert step == Unlink(n);
        forall u | u in s'.holders[n] ensures EnteredBy(s', u, s'.currentEpoche) {
          assert ThreadOk(s, u);
        }
      }
    }
    forall n | n in s'.holders ensures HoldersOk(s', n) {
      forall u | u in s'.holders[n] ensures u < |s'.threads| && InSection(s'.threads[u].pc) {
        HolderStep(s, s', t, step, n, u);
      }
    }
  }

  lemma InvStep(s: State, s': State, t: Tid, step: Step)
    requires Inv(s) && Next(s, s', t, step)
    ensures Inv(s')
  {
    Frame(s, s', t, step);
    forall o | 0 <= o < |s'.threads| ensures ThreadOk(s', o) {
      if o != t {
        OtherStep(s, s', t, step, o);
      } else if step.AddMark? {
        SelfAddMark(s, s', t);
      } else if step.SweepOne? {
        SelfSweep(s, s', t);
      } else {
        SelfQuiet(s, s', t, step);
      }
    }
    GlobalStep(s, s', t, step);
  }

  lemma {:induction false} InvRun(run: seq<State>, i: nat)
    requires Run(run) && i < |run|
    ensures Inv(run[i])
  {
    if i == 0 {
      InvInit(run[0]);
    } else {
      InvRun(run, i - 1);
      assert Stepped(run, i - 1);
      var t, step :| Next(run[i - 1], run[i], t, step);
      InvStep(run[i - 1], run[i], t, step);
    }
  }

  // ---- Safety ----

  /** Node `n` is taken out of the structure in the step from state `j`. */
  ghost predicate UnlinkedIn(run: seq<State>, j: nat, n: Node) {
    && j + 1 < |run| && n in run[j].status && run[j].status[n] == Linked
    && n in run[j + 1].status && run[j + 1].status[n].Unlinked?
  }

  /** Thread `u` has been out of its critical section at some time after state `j`. */
  ghost predicate LeftSince(run: seq<State>, j: nat, i: nat, u: Tid) {
    exists m: nat :: j < m <= i < |run| && OutIn(run[m], u)
  }

  predicate OutIn(s: State, u: Tid) {
    u < |s.threads| && !InSection(s.threads[u].pc)
  }

  lemma HolderStays(s: State, s': State, t: Tid, step: Step, n: Node, u: Tid)
    requires Inv(s) && Next(s, s', t, step) && n in s.holders && u in s.holders[n]
    ensures n in s'.holders && (u in s'.holders[n] || OutIn(s', u))
  {
    Frame(s, s', t, step);
    assert HoldersOk(s, n) && n in s.status && s.status[n] != Linked;
  }

  lemma HoldsFrom(s: State, s': State, t: Tid, step: Step, n: Node, u: Tid)
    requires Inv(s) && Next(s, s', t, step) && n in s.status && s.status[n] == Linked && n in s'.status
    requires s'.status[n].Unlinked? && u < |s.threads| && InSection(s.threads[u].pc)
    ensures n in s'.holders && u in s'.holders[n]
  {
    assert ThreadOk(s, t);
    assert u in Sectioned(s);
  }

  /** Who was in a critical section when the node was unlinked is still a holder of it, or has been outside since. */
  lemma {:induction false} HeldOrLeft(run: seq<State>, j: nat, i: nat, n: Node, u: Tid)
    requires Run(run) && UnlinkedIn(run, j, n) && j < i < |run|
    requires u < |run[j].threads| && InSection(run[j].threads[u].pc)
    ensures n in run[i].holders && (u in run[i].holders[n] || LeftSince(run, j, i, u))
  {
    InvRun(run, i - 1);
    assert Stepped(run, i - 1);
    var t, step :| Next(run[i - 1], run[i], t, step);
    if i - 1 == j {
      HoldsFrom(run[j], run[i], t, step, n, u);
    } else {
      HeldOrLeft(run, j, i - 1, n, u);
      if u in run[i - 1].holders[n] {
        HolderStays(run[i - 1], run[i], t, step, n, u);
        assert u in run[i].holders[n] || OutIn(run[i], u);
      } else {
        var m: nat :| j < m <= i - 1 && OutIn(run[m], u);
        HoldersKept(run[i - 1], run[i], t, step, n);
      }
    }
  }

  lemma HoldersKept(s: State, s': State, t: Tid, step: Step, n: Node)
    requires Next(s, s', t, step) && n in s.holders
    ensures n in s'.holders
  {
  }

  lemma UnlinkStep(s: State, s': State, t: Tid, step: Step, n: Node)
    requires Inv(s) && Next(s, s', t, step) && n in s'.status && s'.status[n] != Linked
    ensures n in s.status && (s.status[n] == Linked ==> s'.status[n].Unlinked?)
  {
    assert ThreadOk(s, t);
    if step.SweepOne? && s'.status != s.status {
      assert Live(s.threads[t], s.threads[t].pc.k, s.threads[t].pc.i);
    }
  }

  /** A node that is not in the structure any more was unlinked in an earlier step. */
  lemma {:induction false} UnlinkedBefore(run: seq<State>, i: nat, n: Node) returns (j: nat)
    requires Run(run) && i < |run| && n in run[i].status && run[i].status[n] != Linked
    ensures j < i && UnlinkedIn(run, j, n)
  {
    assert i > 0;
    InvRun(run, i - 1);
    assert Stepped(run, i - 1);
    var t, step :| Next(run[i - 1], run[i], t, step);
    UnlinkStep(run[i - 1], run[i], t, step, n);
    if run[i - 1].status[n] == Linked {
      j := i - 1;
    } else {
      j := UnlinkedBefore(run, i - 1, n);
    }
  }

  /** Thread `u` was in a critical section when node `n` was taken out in the step from state `j`. */
  ghost predicate MayHoldFrom(run: seq<State>, j: nat, n: Node, u: Tid) {
    UnlinkedIn(run, j, n) && u < |run[j].threads| && InSection(run[j].threads[u].pc)
  }

  /** Safety: in every run, when a node is freed, it is one that its freer had marked; it was taken out of the structure
      in some step before; and everyone who was in a critical section then has left it since. */
  lemma FreedSafely(run: seq<State>, i: nat, n: Node) returns (t: Tid)
    requires Run(run) && i + 1 < |run| && n in run[i].status && run[i].status[n] != Gone
    requires n in run[i + 1].status && run[i + 1].status[n] == Gone
    ensures run[i].status[n] == Marked(t) && t < |run[i].threads| && run[i].threads[t].pc.Sweep?
    ensures n in run[i].holders && run[i].holders[n] == {}
    ensures exists j: nat :: j < i && UnlinkedIn(run, j, n)
    ensures forall j: nat, u: Tid :: j < i && MayHoldFrom(run, j, n, u) ==> LeftSince(run, j, i, u)
  {
    assert Stepped(run, i);
    var step;
    t, step :| Next(run[i], run[i + 1], t, step);
    NobodyHolds(run, i, t, step, n);
    var before := UnlinkedBefore(run, i, n);
    forall j: nat, u: Tid | j < i && MayHoldFrom(run, j, n, u) ensures LeftSince(run, j, i, u) {
      HeldOrLeft(run, j, i, n, u);
    }
  }

  lemma NobodyHolds(run: seq<State>, i: nat, t: Tid, step: Step, n: Node)
    requires Run(run) && i + 1 < |run| && Next(run[i], run[i + 1], t, step) && n in run[i].status
    requires run[i].status[n] != Gone && n in run[i + 1].status && run[i + 1].status[n] == Gone
    ensures n in run[i].holders && run[i].holders[n] == {}
    ensures run[i].status[n] == Marked(t) && run[i].threads[t].pc.Sweep?
  {
    InvRun(run, i);
    var s := run[i];
    var T := s.threads[t];
    assert Frees(s, run[i + 1], t, step, n);
    assert ThreadOk(s, t) && Live(T, T.pc.k, T.pc.i) && NodeOk(s, t, T.pc.k, T.pc.i);
    forall u ensures u !in s.holders[n] {
      assert u in s.holders[n] ==> EnteredBy(s, u, T.labels[T.pc.k].epoche);
    }
  }

  // ---- Conservation ----

  /** The thread has node `n` in its list, not freed yet. */
  ghost predicate Lists(T: Thread, n: Node) {
    exists p: nat, q: nat :: Live(T, p, q) && T.labels[p].nodes[q] == n
  }

  /** Every node that is marked is in the list of the thread that marked it. */
  ghost predicate AllListed(s: State) {
    forall n :: n in s.status && s.status[n].Marked? ==> ListedBy(s, s.status[n].owner, n)
  }

  ghost predicate ListedBy(s: State, t: Tid, n: Node) {
    t < |s.threads| && Lists(s.threads[t], n)
  }

  lemma AddMarkLists(s: State, s': State, t: Tid, n: Node)
    requires Next(s, s', t, AddMark) && (Lists(s.threads[t], n) || n == s.threads[t].pc.n)
    ensures ListedBy(s', t, n)
  {
    var T, T' := s.threads[t], s'.threads[t];
    if n == T.pc.n {
      var q := if T.labels != [] && |T.labels[0].nodes| < LABEL_CAPACITY then |T.labels[0].nodes| else 0;
      assert Live(T', 0, q) && T'.labels[0].nodes[q] == n;
    } else {
      var p: nat, q: nat :| Live(T, p, q) && T.labels[p].nodes[q] == n;
      var p' := if |T'.labels| == |T.labels| then p else p + 1;
      assert Live(T', p', q) && T'.labels[p'].nodes[q] == n;
    }
  }

  lemma SweepLists(s: State, s': State, t: Tid, n: Node)
    requires Next(s, s', t, SweepOne) && SweepOk(s.threads[t]) && Lists(s.threads[t], n)
    requires n in s'.status && s'.status[n] == Marked(t)
    ensures ListedBy(s', t, n)
  {
    var T, T' := s.threads[t], s'.threads[t];
    var p: nat, q: nat :| Live(T, p, q) && T.labels[p].nodes[q] == n;
    var p' := if |T'.labels| < |T.labels| && p > T.pc.k then p - 1 else p;
    assert Live(T', p', q) && T'.labels[p'].nodes[q] == n;
  }

  lemma QuietLists(s: State, s': State, t: Tid, step: Step, n: Node)
    requires Next(s, s', t, step) && !step.AddMark? && !step.SweepOne? && Lists(s.threads[t], n)
    ensures ListedBy(s', t, n)
  {
    Frame(s, s', t, step);
    var T, T' := s.threads[t], s'.threads[t];
    var p: nat, q: nat :| Live(T, p, q) && T.labels[p].nodes[q] == n;
    assert Live(T', p, q) && T'.labels[p].nodes[q] == n;
  }

  lemma ListedStep(s: State, s': State, t: Tid, step: Step, n: Node)
    requires Inv(s) && AllListed(s) && Next(s, s', t, step) && n in s'.status && s'.status[n].Marked?
    ensures ListedBy(s', s'.status[n].owner, n)
  {
    Frame(s, s', t, step);
    assert ThreadOk(s, t);
    if step.AddMark? && n == s.threads[t].pc.n {
      AddMarkLists(s, s', t, n);
    } else {
      assert n in s.status && s.status[n] == s'.status[n];
      assert ListedBy(s, s.status[n].owner, n);
      if s.status[n].owner == t {
        if step.AddMark? {
          AddMarkLists(s, s', t, n);
        } else if step.SweepOne? {
          SweepLists(s, s', t, n);
        } else {
          QuietLists(s, s', t, step, n);
        }
      }
    }
  }

  lemma ListedNext(s: State, s': State, t: Tid, step: Step)
    requires Inv(s) && AllListed(s) && Next(s, s', t, step)
    ensures AllListed(s')
  {
    forall n | n in s'.status && s'.status[n].Marked? ensures ListedBy(s', s'.status[n].owner, n) {
      ListedStep(s, s', t, step, n);
    }
  }

  lemma {:induction false} ListedRun(run: seq<State>, i: nat)
    requires Run(run) && i < |run|
    ensures AllListed(run[i])
  {
    if i > 0 {
      ListedRun(run, i - 1);
      InvRun(run, i - 1);
      assert Stepped(run, i - 1);
      var t, step :| Next(run[i - 1], run[i], t, step);
      ListedNext(run[i - 1], run[i], t, step);
    }
  }

  /** Conservation: the nodes that are marked by a thread and not freed are exactly those in its list, each in one
      place; and its counters agree. */
  lemma Conservation(run: seq<State>, i: nat, t: Tid)
    requires Run(run) && i < |run| && t < |run[i].threads|
    ensures var s, T := run[i], run[i].threads[t];
            && (forall n :: n in s.status && s.status[n] == Marked(t) <==> Lists(T, n))
            && Distinct(T) && T.added == T.deleted + Count(T.labels)
  {
    var s, T := run[i], run[i].threads[t];
    InvRun(run, i);
    ListedRun(run, i);
    assert ThreadOk(s, t);
    forall n ensures n in s.status && s.status[n] == Marked(t) <==> Lists(T, n) {
      if Lists(T, n) {
        var p: nat, q: nat :| Live(T, p, q) && T.labels[p].nodes[q] == n;
        assert NodeOk(s, t, p, q);
      }
      assert n in s.status && s.status[n] == Marked(t) ==> ListedBy(s, t, n);
    }
  }

  lemma MarkedStep(s: State, s': State, t: Tid, step: Step, o: Tid, n: Node)
    requires Inv(s) && Next(s, s', t, step) && n in s.status && s.status[n] in {Marked(o), Gone}
    ensures n in s'.status && s'.status[n] in {Marked(o), Gone}
  {
    assert ThreadOk(s, t);
  }

  /** A node that a thread has marked stays marked by it until it is freed. */
  lemma {:induction false} MarkedOrGone(run: seq<State>, i: nat, j: nat, t: Tid, n: Node)
    requires Run(run) && i <= j < |run| && n in run[i].status && run[i].status[n] in {Marked(t), Gone}
    ensures n in run[j].status && run[j].status[n] in {Marked(t), Gone}
    decreases j - i
  {
    if i < j {
      InvRun(run, i);
      assert Stepped(run, i);
      var u, step :| Next(run[i], run[i + 1], u, step);
      MarkedStep(run[i], run[i + 1], u, step, t, n);
      MarkedOrGone(run, i + 1, j, t, n);
    }
  }

  lemma GoneStep(s: State, s': State, t: Tid, step: Step, n: Node)
    requires Inv(s) && Next(s, s', t, step) && n in s.status && s.status[n] == Gone
    ensures n in s'.status && s'.status[n] == Gone
  {
    assert ThreadOk(s, t);
  }

  /** Once freed, always freed: a node is freed at most once. */
  lemma {:induction false} GoneStays(run: seq<State>, i: nat, j: nat, n: Node)
    requires Run(run) && i <= j < |run| && n in run[i].status && run[i].status[n] == Gone
    ensures n in run[j].status && run[j].status[n] == Gone
    decreases j - i
  {
    if i < j {
      InvRun(run, i);
      assert Stepped(run, i);
      var t, step :| Next(run[i], run[i + 1], t, step);
      GoneStep(run[i], run[i + 1], t, step, n);
      GoneStays(run, i + 1, j, n);
    }
  }
}
