/** Opacity of TL2 in one order: all transactions together, those that aborted or have not ended included. */
module Tl2Total {
  import opened Options
  import opened Tl2Log
  import opened Tl2Machine
  import opened Tl2Calls
  import opened Tl2Structure
  import opened Tl2History
  import opened Tl2Invariant
  import opened Tl2Opacity
  import opened Tl2Serial

  // ---- All transactions ----

  /** The transactions that have not ended, with what they have done so far. */
  function Unfinished(threads: seq<Thread>): seq<TxRecord> {
    if threads == [] then []
    else
      var T := threads[|threads| - 1];
      Unfinished(threads[..|threads| - 1]) + if Running(T) then [TxRecord(T.rv, T.start, T.ops, T.seen, Aborted)]
          else []
  }

  function History(s: State): seq<TxRecord> {
    s.done + Unfinished(s.threads)
  }

  /** What is known of every transaction: it saw the values at its read version, and all that had ended when it
      began are at or below that version. */
  ghost predicate Consistent(s: State, r: TxRecord) {
    StartOk(s.done, r.start, r.rv) && SeenOk(s, r.rv, r.seen) && LoadsOk(r.ops, r.seen)
  }

  lemma {:induction false} UnfinishedOk(s: State, n: nat, d: nat)
    requires Inv(s) && n <= |s.threads| && d < |Unfinished(s.threads[..n])|
    ensures Unfinished(s.threads[..n])[d].outcome.Aborted? && Consistent(s, Unfinished(s.threads[..n])[d])
  {
    var before := s.threads[..n - 1];
    assert s.threads[..n][..n - 1] == before;
    if d < |Unfinished(before)| {
      UnfinishedOk(s, n - 1, d);
    } else {
      assert ThreadInv(s, n - 1);
    }
  }

  lemma HistoryOk(s: State, d: nat)
    requires Inv(s) && d < |History(s)|
    ensures d < |s.done| ==> History(s)[d] == s.done[d]
    ensures d >= |s.done| ==> History(s)[d].outcome.Aborted?
    ensures Consistent(s, History(s)[d])
  {
    if d < |s.done| {
      assert RecordInv(s, d);
    } else {
      assert s.threads[..|s.threads|] == s.threads;
      UnfinishedOk(s, |s.threads|, d - |s.done|);
    }
  }

  // ---- One order ----

  function AsReader(r: TxRecord): TxRecord {
    if r.outcome.Aborted? then r.(outcome := ReadOnly) else r
  }

  /** Every transaction that did not commit counts as one that only read. */
  function AsReaders(h: seq<TxRecord>): seq<TxRecord> {
    seq(|h|, i requires 0 <= i < |h| => AsReader(h[i]))
  }

  /** `all` lists all transactions, each once: by version, writers before the others of their version, and in the
      order they finished otherwise. */
  ghost predicate TotalOrder(h: seq<TxRecord>, all: seq<nat>) {
    SerialOrder(AsReaders(h), all)
  }

  lemma TotalOrderExists(h: seq<TxRecord>) returns (all: seq<nat>)
    ensures TotalOrder(h, all)
  {
    all := SerialOrderExists(AsReaders(h));
  }

  lemma TotalOrdered(h: seq<TxRecord>, all: seq<nat>, p: nat, q: nat)
    requires TotalOrder(h, all) && p < q < |all|
    ensures all[p] < |h| && all[q] < |h| && Before(h, all[p], all[q])
  {
    assert Before(AsReaders(h), all[p], all[q]);
  }

  lemma TotalMember(h: seq<TxRecord>, all: seq<nat>, d: nat) returns (p: nat)
    requires TotalOrder(h, all) && d < |h|
    ensures p < |all| && all[p] == d
  {
    assert !AsReaders(h)[d].outcome.Aborted?;
    p :| 0 <= p < |all| && all[p] == d;
  }

  /** Memory after the first `n` of all transactions, those that did not commit leaving it as it is. */
  function MemoryAt(mem0: Memory, h: seq<TxRecord>, all: seq<nat>, n: nat): Memory
    requires n <= |all| && forall p :: 0 <= p < |all| ==> all[p] < |h|
  {
    if n == 0 then mem0
    else
      var m := MemoryAt(mem0, h, all, n - 1);
      if h[all[n - 1]].outcome.Aborted? then m else RunOps(h[all[n - 1]].ops, m)
  }

  // ---- Without the aborted ones ----

  /** Those of the first `n` that did not abort. */
  function Kept(h: seq<TxRecord>, all: seq<nat>, n: nat): seq<nat>
    requires n <= |all| && forall p :: 0 <= p < |all| ==> all[p] < |h|
  {
    if n == 0 then []
    else Kept(h, all, n - 1) + if h[all[n - 1]].outcome.Aborted? then [] else [all[n - 1]]
  }

  lemma {:induction false} KeptFrom(h: seq<TxRecord>, all: seq<nat>, n: nat, p: nat) returns (q: nat)
    requires TotalOrder(h, all) && n <= |all| && p < |Kept(h, all, n)|
    ensures q < n && Kept(h, all, n)[p] == all[q] && !h[all[q]].outcome.Aborted? && |Kept(h, all, q)| == p
  {
    if p < |Kept(h, all, n - 1)| {
      q := KeptFrom(h, all, n - 1, p);
    } else {
      q := n - 1;
    }
  }

  lemma {:induction false} KeptFirst(h: seq<TxRecord>, all: seq<nat>, m: nat, n: nat)
    requires TotalOrder(h, all) && m <= n <= |all|
    ensures Kept(h, all, m) <= Kept(h, all, n)
  {
    if m < n {
      KeptFirst(h, all, m, n - 1);
    }
  }

  lemma KeptHas(h: seq<TxRecord>, all: seq<nat>, d: nat)
    requires TotalOrder(h, all) && d < |h| && !h[d].outcome.Aborted?
    ensures d in Kept(h, all, |all|)
  {
    var q := TotalMember(h, all, d);
    KeptFirst(h, all, q + 1, |all|);
    assert Kept(h, all, q + 1)[|Kept(h, all, q)|] == d;
  }

  lemma KeptDone(s: State, all: seq<nat>, p: nat)
    requires Inv(s) && TotalOrder(History(s), all) && p < |Kept(History(s), all, |all|)|
    ensures var d := Kept(History(s), all, |all|)[p]; d < |s.done| && !s.done[d].outcome.Aborted?
  {
    var q := KeptFrom(History(s), all, |all|, p);
    HistoryOk(s, all[q]);
  }

  /** They are a serial order of the transactions that committed. */
  lemma KeptSerial(s: State, all: seq<nat>)
    requires Inv(s) && TotalOrder(History(s), all)
    ensures SerialOrder(s.done, Kept(History(s), all, |all|))
  {
    var order := Kept(History(s), all, |all|);
    forall p | 0 <= p < |order| ensures order[p] < |s.done| && !s.done[order[p]].outcome.Aborted? {
      KeptDone(s, all, p);
    }
    forall p, p' | 0 <= p < p' < |order| ensures Before(s.done, order[p], order[p']) {
      KeptBefore(s, all, p, p');
    }
    forall d | 0 <= d < |s.done| && !s.done[d].outcome.Aborted? ensures d in order {
      KeptHas(History(s), all, d);
    }
  }

  lemma KeptBefore(s: State, all: seq<nat>, p: nat, p': nat)
    requires Inv(s) && TotalOrder(History(s), all) && p < p' < |Kept(History(s), all, |all|)|
    ensures var order := Kept(History(s), all, |all|);
            order[p] < |s.done| && order[p'] < |s.done| && Before(s.done, order[p], order[p'])
  {
    var h := History(s);
    var q := KeptFrom(h, all, |all|, p);
    var q' := KeptFrom(h, all, |all|, p');
    HistoryOk(s, all[q]);
    HistoryOk(s, all[q']);
    if q' <= q {
      KeptFirst(h, all, q', q);
    }
    TotalOrdered(h, all, q, q');
  }

  lemma {:induction false} MemoryAtIs(mem0: Memory, done: seq<TxRecord>, h: seq<TxRecord>, all: seq<nat>,
                                      order: seq<nat>, n: nat)
    requires n <= |all| && done <= h && (forall p :: 0 <= p < |all| ==> all[p] < |h|)
    requires Kept(h, all, n) <= order && forall p :: 0 <= p < |order| ==> order[p] < |done|
    ensures MemoryAt(mem0, h, all, n) == MemAfter(mem0, done, order, |Kept(h, all, n)|)
  {
    if n > 0 {
      var m := |Kept(h, all, n - 1)|;
      assert Kept(h, all, n - 1) == Kept(h, all, n)[..m];
      MemoryAtIs(mem0, done, h, all, order, n - 1);
      if !h[all[n - 1]].outcome.Aborted? {
        assert order[m] == Kept(h, all, n)[m] == all[n - 1];
      }
    }
  }

  // ---- Every transaction in its place ----

  /** The writers kept before place `n` are those whose commits are visible at the version of the one there. */
  lemma KeptVisible(s: State, all: seq<nat>, n: nat, p: nat)
    requires Inv(s) && TotalOrder(History(s), all) && n < |all| && History(s)[all[n]].outcome.Aborted?
    requires p < |Kept(History(s), all, |all|)|
    ensures var h := History(s); var d := Kept(h, all, |all|)[p];
            && d < |s.done|
            && (s.done[d].outcome.Committed? ==>
                  (p < |Kept(h, all, n)| <==> SerialVersion(s.done[d]) <= h[all[n]].rv))
  {
    var h := History(s);
    var q := KeptFrom(h, all, |all|, p);
    HistoryOk(s, all[q]);
    if q < n {
      TotalOrdered(h, all, q, n);
      KeptFirst(h, all, q + 1, n);
    } else if q > n {
      TotalOrdered(h, all, n, q);
      KeptFirst(h, all, n, q);
    }
  }

  lemma PlaceLegal(s: State, all: seq<nat>, n: nat)
    requires Inv(s) && TotalOrder(History(s), all) && n < |all|
    ensures Legal(History(s)[all[n]].ops, MemoryAt(s.mem0, History(s), all, n))
  {
    var h := History(s);
    var order, m := Kept(h, all, |all|), |Kept(h, all, n)|;
    KeptSerial(s, all);
    KeptFirst(h, all, n, |all|);
    MemoryAtIs(s.mem0, s.done, h, all, order, n);
    HistoryOk(s, all[n]);
    if h[all[n]].outcome.Aborted? {
      forall p | 0 <= p < |order| && order[p] < |s.done| && s.done[order[p]].outcome.Committed?
        ensures p < m <==> SerialVersion(s.done[order[p]]) <= h[all[n]].rv
      {
        KeptVisible(s, all, n, p);
      }
      SnapshotLegal(s, order, m, h[all[n]].rv, h[all[n]].ops, h[all[n]].seen);
    } else {
      KeptFirst(h, all, n + 1, |all|);
      assert Kept(h, all, n + 1)[m] == all[n];
      ReplayLegal(s, order, m);
    }
  }

  lemma PlaceInTime(s: State, all: seq<nat>, p: nat, q: nat)
    requires Inv(s) && TotalOrder(History(s), all) && p < |all| && q < |all|
    requires all[p] < History(s)[all[q]].start
    ensures p < q
  {
    var h := History(s);
    var i, j := all[p], all[q];
    HistoryOk(s, i);
    HistoryOk(s, j);
    assert SerialVersion(h[i]) <= h[j].rv;
    if j < |s.done| {
      assert RecordInv(s, j);
    }
    assert Before(h, i, j);
    if q < p {
      TotalOrdered(h, all, q, p);
      BeforeTotal(h, i, j, i);
    }
  }

  /** Opacity in one order.  In every state of every run all transactions, committed, aborted and running, can be
      executed one at a time in the order of their versions, the writes of those that did not commit being
      dropped: every load returns what it returned, and a transaction that had ended when another began comes
      before it, whatever became of the two.  The operations are those that the threads called for. */
  lemma OneOrder(run: seq<State>, i: nat, all: seq<nat>)
    requires Run(run) && i < |run| && TotalOrder(History(run[i]), all)
    ensures var h := History(run[i]);
            && (forall n :: 0 <= n < |all| ==> Legal(h[all[n]].ops, MemoryAt(run[i].mem0, h, all, n)))
            && (forall p, q :: 0 <= p < |all| && 0 <= q < |all| && all[p] < h[all[q]].start ==> p < q)
    ensures AsCalled(run, i) && run[i].mem0 == run[0].mem
  {
    AllAsCalled(run, i);
    var s := run[i];
    var h := History(s);
    InvRun(run, i);
    forall n | 0 <= n < |all| ensures Legal(h[all[n]].ops, MemoryAt(s.mem0, h, all, n)) {
      PlaceLegal(s, all, n);
    }
    forall p, q | 0 <= p < |all| && 0 <= q < |all| && all[p] < h[all[q]].start ensures p < q {
      PlaceInTime(s, all, p, q);
    }
  }
}
