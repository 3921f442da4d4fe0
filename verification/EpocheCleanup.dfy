/** What a cleanup finds and what it leaves: the scan takes the least epoch that it looks, the sweep leaves no label
    older than that, and an exit cleans up when enough nodes have been marked. */
module EpocheCleanup {
  import opened EpocheList
  import opened Epoche

  // ---- The scan ----

  /** `e` is not above `f`; `Max` is above all others. */
  predicate NotAbove(e: Epoch, f: Epoch) {
    f.Max? || (e.At? && e.n <= f.n)
  }

  /** In the step from state `j` thread `t` looks the epoch that thread `u` announces. */
  predicate ReadsIn(run: seq<State>, j: nat, t: Tid, u: Tid) {
    && j + 1 < |run| && t < |run[j].threads| && t < |run[j + 1].threads| && u < |run[j].threads|
    && run[j].threads[t].pc.Scan? && run[j].threads[t].pc.u == u && run[j + 1].threads[t].pc != run[j].threads[t].pc
  }

  /** Since state `b`, where thread `t` gave up its own epoch, it has read the first epochs, one after the other in the
      steps `looks`; `oldest` is the least of them. */
  ghost predicate ScannedIn(run: seq<State>, b: nat, i: nat, t: Tid, looks: seq<nat>, oldest: Epoch) {
    && b < i < |run| && t < |run[b].threads| && run[b].threads[t].pc == Retire
    && (forall j :: b < j <= i ==> CleansUp(run[j], t))
    && (forall u :: 0 <= u < |looks| ==> b < looks[u] < i && ReadsIn(run, looks[u], t, u))
    && IsLeast(run, looks, oldest)
  }

  predicate CleansUp(s: State, t: Tid) {
    t < |s.threads| && s.threads[t].localEpoche == Max && InCleanup(s.threads[t].pc)
  }

  ghost predicate IsLeast(run: seq<State>, looks: seq<nat>, oldest: Epoch) {
    && (forall u :: 0 <= u < |looks| ==> NotAbove(oldest, Read(run, looks, u)))
    && (oldest == Max || exists u :: 0 <= u < |looks| && Read(run, looks, u) == oldest)
  }

  predicate InCleanup(pc: Pc) {
    pc.Scan? || pc.Sweep?
  }

  /** The epoch that was read of thread `u`. */
  function Read(run: seq<State>, looks: seq<nat>, u: nat): Epoch
    requires u < |looks|
  {
    if looks[u] < |run| && u < |run[looks[u]].threads| then run[looks[u]].threads[u].localEpoche else Max
  }

  lemma {:induction false} ThreadsStay(run: seq<State>, i: nat)
    requires Run(run) && i < |run|
    ensures |run[i].threads| == |run[0].threads| && run[i].startGCThreshold == run[0].startGCThreshold
  {
    if i > 0 {
      ThreadsStay(run, i - 1);
      assert Stepped(run, i - 1);
      var t, step :| Next(run[i - 1], run[i], t, step);
      Frame(run[i - 1], run[i], t, step);
    }
  }

  lemma LeastOfMore(run: seq<State>, looks: seq<nat>, oldest: Epoch, i: nat)
    requires IsLeast(run, looks, oldest) && i < |run| && |looks| < |run[i].threads|
    ensures IsLeast(run, looks + [i], Min(oldest, run[i].threads[|looks|].localEpoche))
  {
    var more, e := looks + [i], run[i].threads[|looks|].localEpoche;
    assert Read(run, more, |looks|) == e;
    forall u | 0 <= u < |looks| ensures Read(run, more, u) == Read(run, looks, u) {
    }
    if Min(oldest, e) == oldest && oldest != Max {
      var u :| 0 <= u < |looks| && Read(run, looks, u) == oldest;
      assert Read(run, more, u) == oldest;
    }
  }

  /** A step while thread `t` cleans up: it reads one epoch, or what it has found stays. */
  lemma CleanupStep(s: State, s': State, u: Tid, step: Step, t: Tid)
    requires Next(s, s', u, step) && CleansUp(s, t) && t < |s'.threads| && InCleanup(s'.threads[t].pc)
    requires s.threads[t].pc.Scan? ==> s.threads[t].pc.u <= |s.threads|
    ensures CleansUp(s', t) && |s'.threads| == |s.threads|
    ensures var T, T' := s.threads[t], s'.threads[t];
            if u == t && T.pc.Scan? && T.pc.u < |s.threads|
            then T'.pc == Scan(T.pc.u + 1, Min(T.pc.oldest, s.threads[T.pc.u].localEpoche))
            else T'.pc.oldest == T.pc.oldest && Scanned(T', |s.threads|) == Scanned(T, |s.threads|)
  {
    Frame(s, s', u, step);
  }

  /** One more step of a run with a scan or sweep of `t` at its end. */
  lemma ScanGoesOn(run: seq<State>, b: nat, i: nat, t: Tid, looks: seq<nat>) returns (more: seq<nat>)
    requires Run(run) && i + 1 < |run| && t < |run[i].threads| && InCleanup(run[i].threads[t].pc)
    requires ScannedIn(run, b, i, t, looks, run[i].threads[t].pc.oldest)
    requires |looks| == Scanned(run[i].threads[t], |run[i].threads|)
    requires t < |run[i + 1].threads| && InCleanup(run[i + 1].threads[t].pc)
    ensures ScannedIn(run, b, i + 1, t, more, run[i + 1].threads[t].pc.oldest)
    ensures |more| == Scanned(run[i + 1].threads[t], |run[i + 1].threads|)
  {
    assert Stepped(run, i);
    var u, step :| Next(run[i], run[i + 1], u, step);
    if run[i].threads[t].pc.Scan? {
      ScanInRange(run, i, t);
    }
    assert CleansUp(run[i], t);
    CleanupStep(run[i], run[i + 1], u, step, t);
    var T := run[i].threads[t];
    more := looks;
    if u == t && T.pc.Scan? && T.pc.u < |run[i].threads| {
      more := looks + [i];
      LeastOfMore(run, looks, T.pc.oldest, i);
      assert ReadsIn(run, i, t, |looks|);
    }
  }

  lemma ScanInRange(run: seq<State>, i: nat, t: Tid)
    requires Run(run) && i < |run| && t < |run[i].threads| && run[i].threads[t].pc.Scan?
    ensures run[i].threads[t].pc.u <= |run[i].threads|
  {
    InvRun(run, i);
    assert ThreadOk(run[i], t);
  }

  lemma {:induction false} ScanFrom(run: seq<State>, i: nat, t: Tid) returns (b: nat, looks: seq<nat>)
    requires Run(run) && i < |run| && t < |run[i].threads| && InCleanup(run[i].threads[t].pc)
    ensures ScannedIn(run, b, i, t, looks, run[i].threads[t].pc.oldest)
    ensures |looks| == Scanned(run[i].threads[t], |run[i].threads|)
  {
    assert i > 0;
    ThreadsStay(run, i - 1);
    ThreadsStay(run, i);
    if InCleanup(run[i - 1].threads[t].pc) {
      b, looks := ScanFrom(run, i - 1, t);
      looks := ScanGoesOn(run, b, i - 1, t, looks);
    } else {
      assert Stepped(run, i - 1);
      var u, step :| Next(run[i - 1], run[i], u, step);
      Frame(run[i - 1], run[i], u, step);
      b, looks := i - 1, [];
    }
  }

  /** When a sweep is under way, every thread's announcement has been read since the sweeper gave up its own epoch, and
      the sweep goes by the least of them: it is one of them, or they were all `Max`. */
  lemma ScanFinds(run: seq<State>, i: nat, t: Tid) returns (b: nat, looks: seq<nat>)
    requires Run(run) && i < |run| && t < |run[i].threads| && run[i].threads[t].pc.Sweep?
    ensures |looks| == |run[i].threads| && ScannedIn(run, b, i, t, looks, run[i].threads[t].pc.oldest)
  {
    b, looks := ScanFrom(run, i, t);
  }

  // ---- The sweep ----

  /** The first `x` of the labels `all` have been gone over, those to be kept lie before `k`, the others are still
      ahead. */
  ghost predicate SweptAs(all: seq<Label>, T: Thread, x: nat) {
    && T.pc.Sweep? && x <= |all| && T.labels == Kept(all[..x], T.pc.oldest) + all[x..]
    && T.pc.k == |Kept(all[..x], T.pc.oldest)|
  }

  /** What one step of a sweep makes of the labels. */
  ghost predicate Sweeps(T: Thread, T': Thread) {
    && T.pc.Sweep?
    && if T.pc.k >= |T.labels| then T'.pc == Outside && T'.labels == T.labels
       else
         && T'.pc.Sweep? && T'.pc.oldest == T.pc.oldest
         && (|| (T'.pc.k == T.pc.k && T'.labels == T.labels)
             || (T'.pc.k == T.pc.k + 1 && T'.labels == T.labels && !Older(T.labels[T.pc.k].epoche, T.pc.oldest))
             || (T'.pc.k == T.pc.k && T'.labels == Without(T.labels, T.pc.k) &&
                 Older(T.labels[T.pc.k].epoche, T.pc.oldest)))
  }

  lemma SweepMoves(s: State, s': State, t: Tid)
    requires Next(s, s', t, SweepOne)
    ensures t < |s'.threads| && Sweeps(s.threads[t], s'.threads[t])
  {
  }

  lemma SweepGoesOn(T: Thread, T': Thread, all: seq<Label>, x: nat) returns (y: nat)
    requires Sweeps(T, T') && SweptAs(all, T, x)
    ensures if T'.pc.Sweep? then SweptAs(all, T', y) else T'.labels == Kept(all, T.pc.oldest)
  {
    y := x;
    if x < |all| {
      var kept := Kept(all[..x], T.pc.oldest);
      assert T.labels[T.pc.k] == all[x];
      SplitKept(all, x, T.pc.oldest);
      if T'.pc.k != T.pc.k || T'.labels != T.labels {
        y := x + 1;
        assert all[x..] == [all[x]] + all[x + 1..];
        SweptPast(kept, all[x], all[x + 1..]);
      }
    } else {
      assert all[..x] == all;
    }
  }

  lemma SweptPast(kept: seq<Label>, l: Label, rest: seq<Label>)
    ensures var ls := kept + ([l] + rest); Without(ls, |kept|) == kept + rest && ls == kept + [l] + rest
  {
  }

  /** A step to a sweep, from the scan or from an earlier moment of the sweep. */
  lemma SweepStep(s: State, s': State, u: Tid, step: Step, t: Tid)
    requires Next(s, s', u, step) && t < |s.threads| && t < |s'.threads| && s'.threads[t].pc.Sweep?
    ensures if s.threads[t].pc.Sweep? then (if u == t then step == SweepOne else s'.threads[t] == s.threads[t])
            else s.threads[t].pc.Scan? && s'.threads[t].pc == Sweep(s'.threads[t].pc.oldest, 0, 0)
  {
    Frame(s, s', u, step);
  }

  lemma SweptNone(T: Thread)
    requires T.pc.Sweep? && T.pc.k == 0
    ensures SweptAs(T.labels, T, 0)
  {
    assert T.labels[..0] == [] && T.labels[0..] == T.labels;
  }

  /** The sweep that is under way began in state `m` with the labels there, and has kept of them what it should. */
  lemma {:induction false} SweepFrom(run: seq<State>, i: nat, t: Tid) returns (m: nat, x: nat)
    requires Run(run) && i < |run| && t < |run[i].threads| && run[i].threads[t].pc.Sweep?
    ensures 0 < m <= i && t < |run[m - 1].threads| && run[m - 1].threads[t].pc.Scan? && t < |run[m].threads|
    ensures run[m].threads[t].pc == Sweep(run[i].threads[t].pc.oldest, 0, 0)
    ensures SweptAs(run[m].threads[t].labels, run[i].threads[t], x)
  {
    assert i > 0;
    assert |run[i - 1].threads| == |run[i].threads| by {
      ThreadsStay(run, i - 1);
      ThreadsStay(run, i);
    }
    assert Stepped(run, i - 1);
    var u, step :| Next(run[i - 1], run[i], u, step);
    SweepStep(run[i - 1], run[i], u, step, t);
    if run[i - 1].threads[t].pc.Sweep? {
      m, x := SweepFrom(run, i - 1, t);
      if u == t {
        SweepMoves(run[i - 1], run[i], t);
        x := SweepGoesOn(run[i - 1].threads[t], run[i].threads[t], run[m].threads[t].labels, x);
      }
    } else {
      m, x := i, 0;
      SweptNone(run[i].threads[t]);
    }
  }

  /** Thread `t` ends its sweep in the step from state `i`. */
  ghost predicate SweepEnds(run: seq<State>, i: nat, t: Tid) {
    && i + 1 < |run| && t < |run[i].threads| && t < |run[i + 1].threads|
    && run[i].threads[t].pc.Sweep? && !run[i + 1].threads[t].pc.Sweep?
  }

  predicate AllGone(s: State, nodes: seq<Node>) {
    forall n :: n in nodes ==> n in s.status && s.status[n] == Gone
  }

  predicate NoneMarked(s: State, t: Tid) {
    forall n :: n in s.status ==> s.status[n] != Marked(t)
  }

  /** At the end of a sweep the thread lists exactly the labels that it listed at its beginning and that are not older
      than what its scan had found; the nodes of all others are gone. */
  lemma SweepLeaves(run: seq<State>, i: nat, t: Tid) returns (m: nat)
    requires Run(run) && SweepEnds(run, i, t)
    ensures 0 < m <= i && t < |run[m].threads| && run[m].threads[t].pc == Sweep(run[i].threads[t].pc.oldest, 0, 0)
    ensures forall l :: l in run[i + 1].threads[t].labels <==>
                        l in run[m].threads[t].labels && !Older(l.epoche, run[i].threads[t].pc.oldest)
    ensures forall l :: l in run[m].threads[t].labels && Older(l.epoche, run[i].threads[t].pc.oldest) ==>
                          AllGone(run[i + 1], l.nodes)
    ensures run[i + 1].threads[t].pc == Outside
  {
    var x;
    m, x := SweepFrom(run, i, t);
    var all, oldest := run[m].threads[t].labels, run[i].threads[t].pc.oldest;
    SweepLast(run, i, t, all, x);
    forall l ensures l in run[i + 1].threads[t].labels <==> l in all && !Older(l.epoche, oldest) {
      KeptOrFreed(all, oldest, l, 0);
    }
    forall l | l in all && Older(l.epoche, oldest) ensures AllGone(run[i + 1], l.nodes) {
      forall n | n in l.nodes ensures n in run[i + 1].status && run[i + 1].status[n] == Gone {
        OldNodeGone(run, m, i + 1, t, l, n);
      }
    }
  }

  lemma SweepLast(run: seq<State>, i: nat, t: Tid, all: seq<Label>, x: nat)
    requires Run(run) && SweepEnds(run, i, t) && SweptAs(all, run[i].threads[t], x)
    ensures run[i + 1].threads[t].pc == Outside
    ensures run[i + 1].threads[t].labels == Kept(all, run[i].threads[t].pc.oldest)
  {
    assert Stepped(run, i);
    var u, step :| Next(run[i], run[i + 1], u, step);
    Frame(run[i], run[i + 1], u, step);
    SweepMoves(run[i], run[i + 1], t);
    var y := SweepGoesOn(run[i].threads[t], run[i + 1].threads[t], all, x);
  }

  /** A node of a label that was listed when the sweep began and is not listed any more is gone. */
  lemma OldNodeGone(run: seq<State>, m: nat, i: nat, t: Tid, l: Label, n: Node)
    requires Run(run) && m <= i < |run| && t < |run[m].threads| && t < |run[i].threads|
    requires run[m].threads[t].pc.Sweep? && run[m].threads[t].pc.i == 0
    requires l in run[m].threads[t].labels && n in l.nodes && !run[i].threads[t].pc.Sweep?
    requires forall l' :: l' in run[i].threads[t].labels ==> l' in run[m].threads[t].labels && l' != l
    ensures n in run[i].status && run[i].status[n] == Gone
  {
    assert Distinct(run[m].threads[t]) by { Conservation(run, m, t); }
    NotListed(run[m].threads[t], run[i].threads[t], l, n);
    assert n in run[m].status && run[m].status[n] == Marked(t) by { Conservation(run, m, t); }
    MarkedOrGone(run, m, i, t, n);
    assert run[i].status[n] != Marked(t) by { Conservation(run, i, t); }
  }

  /** A node is in one label only, so that when that is gone the node is not listed. */
  lemma NotListed(T: Thread, T': Thread, l: Label, n: Node)
    requires Distinct(T) && T.pc.Sweep? && T.pc.i == 0 && !T'.pc.Sweep? && l in T.labels && n in l.nodes
    requires forall l' :: l' in T'.labels ==> l' in T.labels && l' != l
    ensures Lists(T, n) && !Lists(T', n)
  {
    var p: nat :| p < |T.labels| && T.labels[p] == l;
    var q: nat :| q < |l.nodes| && l.nodes[q] == n;
    assert Live(T, p, q);
    forall p': nat, q': nat | Live(T', p', q') ensures T'.labels[p'].nodes[q'] != n {
      var l' := T'.labels[p'];
      assert l' in T'.labels;
      var r: nat :| r < |T.labels| && T.labels[r] == l';
      assert Live(T, r, q');
    }
  }

  /** Thread `t` cleans up from state `b` on and ends its sweep in the step from state `i`. */
  ghost predicate CleanupIn(run: seq<State>, b: nat, i: nat, t: Tid) {
    && b < i && SweepEnds(run, i, t) && t < |run[b].threads| && !InCleanup(run[b].threads[t].pc)
    && forall j :: b < j <= i ==> t < |run[j].threads| && InCleanup(run[j].threads[t].pc)
  }

  /** All epochs announced are above `e`. */
  predicate AllAbove(s: State, e: nat) {
    forall u :: 0 <= u < |s.threads| ==> Older(e, s.threads[u].localEpoche)
  }

  lemma FoundAbove(run: seq<State>, b: nat, i: nat, t: Tid, e: nat)
    requires Run(run) && CleanupIn(run, b, i, t) && forall j :: b < j <= i ==> AllAbove(run[j], e)
    ensures Older(e, run[i].threads[t].pc.oldest)
  {
    var c, looks := ScanFinds(run, i, t);
    assert b <= c;
    var oldest := run[i].threads[t].pc.oldest;
    if oldest != Max {
      var u :| 0 <= u < |looks| && Read(run, looks, u) == oldest;
      assert ReadsIn(run, looks[u], t, u) && AllAbove(run[looks[u]], e);
    }
  }

  /** If all epochs announced during a cleanup are above `e`, the thread lists no label up to epoch `e` at its end. */
  lemma OldLabelsGo(run: seq<State>, b: nat, i: nat, t: Tid, e: nat)
    requires Run(run) && CleanupIn(run, b, i, t) && forall j :: b < j <= i ==> AllAbove(run[j], e)
    ensures forall l :: l in run[i + 1].threads[t].labels ==> l.epoche > e
  {
    FoundAbove(run, b, i, t, e);
    var m := SweepLeaves(run, i, t);
  }

  lemma HasFirst(labels: seq<Label>)
    ensures labels == [] || labels[0] in labels
  {
  }

  /** If nobody is inside during a cleanup, nothing that the thread has marked is left at its end. */
  lemma NothingLeft(run: seq<State>, b: nat, i: nat, t: Tid)
    requires Run(run) && CleanupIn(run, b, i, t)
    requires forall j, u :: b < j <= i && 0 <= u < |run[j].threads| ==> run[j].threads[u].localEpoche == Max
    ensures run[i + 1].threads[t].labels == []
    ensures NoneMarked(run[i + 1], t)
  {
    var labels := run[i + 1].threads[t].labels;
    forall l ensures l !in labels {
      OldLabelsGo(run, b, i, t, l.epoche);
    }
    HasFirst(labels);
    Conservation(run, i + 1, t);
  }

  // ---- When an exit cleans up ----

  /** How many nodes thread `t` has marked since it last cleaned up, or last had enough marks and nothing to free. */
  function MarksSince(run: seq<State>, i: nat, t: Tid): nat
    requires i < |run| && forall j :: 0 <= j <= i ==> t < |run[j].threads|
  {
    if i == 0 then 0 else
    var marks, pc, pc' := MarksSince(run, i - 1, t), run[i - 1].threads[t].pc, run[i].threads[t].pc;
    if pc.Marking? && !pc'.Marking? then marks + 1
    else if pc.Sweep? && !pc'.Sweep? then 0
    else if pc.Threshold? && pc'.Outside? && marks > run[0].startGCThreshold then 0
    else marks
  }

  lemma CounterStep(s: State, s': State, u: Tid, step: Step, t: Tid)
    requires Next(s, s', u, step) && t < |s.threads|
    ensures t < |s'.threads|
    ensures var T, T' := s.threads[t], s'.threads[t];
            T'.thresholdCounter ==
              if T.pc.Marking? && !T'.pc.Marking? then T.thresholdCounter + 1
              else if T.pc.Sweep? && !T'.pc.Sweep? then 0
              else if T.pc.Threshold? && T'.pc.Outside? && T.thresholdCounter > s.startGCThreshold then 0
              else T.thresholdCounter
  {
    Frame(s, s', u, step);
  }

  lemma {:induction false} CountsMarks(run: seq<State>, i: nat, t: Tid)
    requires Run(run) && i < |run| && forall j :: 0 <= j <= i ==> t < |run[j].threads|
    ensures run[i].threads[t].thresholdCounter == MarksSince(run, i, t)
  {
    if i > 0 {
      CountsMarks(run, i - 1, t);
      ThreadsStay(run, i - 1);
      assert Stepped(run, i - 1);
      var u, step :| Next(run[i - 1], run[i], u, step);
      CounterStep(run[i - 1], run[i], u, step, t);
    }
  }

  lemma {:induction false} CountNone(ls: seq<Label>)
    ensures Count(ls) == 0 <==> forall p :: 0 <= p < |ls| ==> ls[p].nodes == []
  {
    if ls != [] {
      CountNone(ls[1..]);
      assert forall p :: 0 < p < |ls| ==> ls[p] == ls[1..][p - 1];
    }
  }

  /** An exit comes to its end without a cleanup, or starts one: it does so if and only if more nodes were marked than
      the threshold says and some node is listed. */
  lemma ExitCleansUp(run: seq<State>, i: nat, t: Tid)
    requires Run(run) && i + 1 < |run| && forall j :: 0 <= j <= i + 1 ==> t < |run[j].threads|
    requires run[i].threads[t].pc == Threshold && run[i + 1].threads[t].pc != Threshold
    ensures if MarksSince(run, i, t) > run[0].startGCThreshold && exists n :: Lists(run[i].threads[t], n)
            then run[i + 1].threads[t].pc == Retire else run[i + 1].threads[t].pc == Outside
  {
    CountsMarks(run, i, t);
    ThreadsStay(run, i);
    assert Stepped(run, i);
    var u, step :| Next(run[i], run[i + 1], u, step);
    Frame(run[i], run[i + 1], u, step);
    var T := run[i].threads[t];
    CountNone(T.labels);
    if p :| 0 <= p < |T.labels| && T.labels[p].nodes != [] {
      assert Live(T, p, 0);
      assert Lists(T, T.labels[p].nodes[0]);
    }
  }

  /** The epoch moves on, by one, in exactly the exits of threads that have marked one node more than a multiple of
      64. */
  lemma EpochMoves(run: seq<State>, i: nat, t: Tid, step: Step)
    requires Run(run) && i + 1 < |run| && Next(run[i], run[i + 1], t, step)
    requires forall j :: 0 <= j <= i ==> t < |run[j].threads|
    ensures run[i + 1].currentEpoche == run[i].currentEpoche +
              if step == Bump && MarksSince(run, i, t) % 64 == 1 then 1 else 0
  {
    CountsMarks(run, i, t);
  }

  // ---- Every exit comes to its end ----

  /** The steps it takes to go over these labels. */
  function Work(ls: seq<Label>): nat {
    if ls == [] then 1 else |ls[0].nodes| + 1 + Work(ls[1..])
  }

  /** The steps thread `T` has still to take until its exit is over, at most. */
  function Left(T: Thread, all: nat): int {
    match T.pc
    case Exit => all + 4 + Work(T.labels)
    case Threshold => all + 3 + Work(T.labels)
    case Retire => all + 2 + Work(T.labels)
    case Scan(u, _) => all - u + 1 + Work(T.labels)
    case Sweep(_, k, i) => (if k <= |T.labels| then Work(T.labels[k..]) else 1) - i
    case _ => 0
  }

  predicate Exits(pc: Pc) {
    pc.Exit? || pc.Threshold? || pc.Retire? || pc.Scan? || pc.Sweep?
  }

  lemma WorkSplit(ls: seq<Label>, k: nat)
    requires k < |ls|
    ensures Work(ls[k..]) == |ls[k].nodes| + 1 + Work(ls[k + 1..])
    ensures Without(ls, k)[k..] == ls[k + 1..]
  {
    assert ls[k..][1..] == ls[k + 1..];
  }

  lemma ExitStep(s: State, s': State, u: Tid, step: Step, t: Tid)
    requires Next(s, s', u, step) && t < |s.threads| && Exits(s.threads[t].pc)
    requires SweepOk(s.threads[t]) && (s.threads[t].pc.Scan? ==> s.threads[t].pc.u <= |s.threads|)
    ensures |s'.threads| == |s.threads|
    ensures var T, T' := s.threads[t], s'.threads[t];
            if u != t then T' == T
            else if Exits(T'.pc) then Left(T', |s.threads|) < Left(T, |s.threads|)
            else T'.pc == Outside && Left(T, |s.threads|) > 0
  {
    Frame(s, s', u, step);
    var T, T' := s.threads[t], s'.threads[t];
    assert T.labels[0..] == T.labels;
    if u == t && T.pc.Sweep? && T.pc.k < |T.labels| {
      WorkSplit(T.labels, T.pc.k);
    }
  }

  /** How many steps thread `t` takes from state `b` to state `i`: each changes where it stands. */
  function StepsOf(run: seq<State>, b: nat, i: nat, t: Tid): nat
    requires b <= i < |run|
    decreases i - b
  {
    if b == i then 0 else StepsOf(run, b, i - 1, t) + if Moves(run[i - 1], run[i], t) then 1 else 0
  }

  predicate Moves(s: State, s': State, t: Tid) {
    t < |s.threads| && t < |s'.threads| && s'.threads[t] != s.threads[t]
  }

  lemma LeftIsLeft(T: Thread, all: nat)
    requires Exits(T.pc) && SweepOk(T) && (T.pc.Scan? ==> T.pc.u <= all)
    ensures Left(T, all) > 0
  {
    if T.pc.Sweep? && T.pc.k < |T.labels| {
      WorkSplit(T.labels, T.pc.k);
    }
  }

  /** The next step of an exit can always be taken. */
  lemma ExitNotStuck(s: State, t: Tid) returns (s': State, step: Step)
    requires t < |s.threads| && Exits(s.threads[t].pc)
    ensures Next(s, s', t, step) && s'.threads[t] != s.threads[t]
  {
    var T := s.threads[t];
    match T.pc
    case Exit =>
      step := Bump;
      s' := Goto(s, t, Threshold)
            .(currentEpoche := if T.thresholdCounter % 64 == 1 then s.currentEpoche + 1 else s.currentEpoche);
    case Threshold =>
      step := CheckThreshold;
      s' := if T.thresholdCounter <= s.startGCThreshold then Goto(s, t, Outside)
            else if Count(T.labels) == 0 then Set(s, t, T.(pc := Outside, thresholdCounter := 0))
            else Goto(s, t, Retire);
    case Retire => s', step := Set(s, t, T.(pc := Scan(0, Max), localEpoche := Max)), AnnounceMax;
    case Scan(u, oldest) =>
      step := ScanOne;
      s' := Goto(s, t, if u < |s.threads| then Scan(u + 1, Min(oldest, s.threads[u].localEpoche))
                       else Sweep(oldest, 0, 0));
    case Sweep(oldest, k, i) =>
      step := SweepOne;
      if k >= |T.labels| {
        s' := Set(s, t, T.(pc := Outside, thresholdCounter := 0));
      } else if !Older(T.labels[k].epoche, oldest) {
        s' := Goto(s, t, Sweep(oldest, k + 1, 0));
      } else if i < |T.labels[k].nodes| {
        s' := Goto(s, t, Sweep(oldest, k, i + 1)).(status := s.status[T.labels[k].nodes[i] := Gone]);
      } else {
        s' := Set(s, t, T.(pc := Sweep(oldest, k, 0), labels := Without(T.labels, k),
                           deleted := T.deleted + |T.labels[k].nodes|));
      }
  }

  /** An exit waits for nobody: however the others move, it is over after a number of steps of its own that is known
      when it begins. */
  lemma ExitEnds(run: seq<State>, b: nat, i: nat, t: Tid)
    requires Run(run) && b <= i < |run|
    requires forall j :: b <= j <= i ==> t < |run[j].threads| && Exits(run[j].threads[t].pc)
    ensures StepsOf(run, b, i, t) < Left(run[b].threads[t], |run[b].threads|)
  {
    ExitGoesOn(run, b, i, t);
    InvRun(run, i);
    assert ThreadOk(run[i], t);
    LeftIsLeft(run[i].threads[t], |run[i].threads|);
  }

  lemma {:induction false} ExitGoesOn(run: seq<State>, b: nat, i: nat, t: Tid)
    requires Run(run) && b <= i < |run|
    requires forall j :: b <= j <= i ==> t < |run[j].threads| && Exits(run[j].threads[t].pc)
    ensures StepsOf(run, b, i, t) + Left(run[i].threads[t], |run[i].threads|) <=
            Left(run[b].threads[t], |run[b].threads|)
    ensures |run[i].threads| == |run[b].threads|
    decreases i - b
  {
    if b < i {
      ExitGoesOn(run, b, i - 1, t);
      assert Stepped(run, i - 1);
      var u, step :| Next(run[i - 1], run[i], u, step);
      InvRun(run, i - 1);
      assert ThreadOk(run[i - 1], t);
      ExitStep(run[i - 1], run[i], u, step, t);
    }
  }
}
