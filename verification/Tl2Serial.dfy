/** Strict serializability and opacity of TL2, stated against a memory that executes transactions
    one at a time. */
module Tl2Serial {
  import opened Options
  import opened Tl2Log
  import opened Tl2Machine
  import opened Tl2Calls
  import opened Tl2Structure
  import opened Tl2History
  import opened Tl2Invariant
  import opened Tl2Opacity

  // ---- Executing transactions one at a time ----

  /** Memory after the operations of one transaction. */
  function RunOps(ops: seq<Op>, m: Memory): Memory {
    if ops == [] then m
    else
      var m' := RunOps(ops[..|ops| - 1], m);
      match ops[|ops| - 1]
      case Load(_, _) => m'
      case Store(a, x) => m'[a := x]
  }

  /** Every load of the transaction returns what memory holds when it is its turn. */
  ghost predicate Legal(ops: seq<Op>, m: Memory) {
    forall j :: 0 <= j < |ops| && ops[j].Load? ==> ops[j].val == Get(RunOps(ops[..j], m), ops[j].addr)
  }

  /** Memory after the first `n` transactions of `order`, each executed alone. */
  function MemAfter(mem0: Memory, done: seq<TxRecord>, order: seq<nat>, n: nat): Memory
    requires n <= |order| && forall p :: 0 <= p < |order| ==> order[p] < |done|
  {
    if n == 0 then mem0
    else RunOps(done[order[n - 1]].ops, MemAfter(mem0, done, order, n - 1))
  }

  /** Transaction `i` comes before `j`: by version, writers before readers of the same version, and
      in the order they finished otherwise. */
  predicate Before(done: seq<TxRecord>, i: nat, j: nat)
    requires i < |done| && j < |done|
  {
    var v, w := SerialVersion(done[i]), SerialVersion(done[j]);
    || v < w
    || (v == w && done[i].outcome.Committed? && !done[j].outcome.Committed?)
    || (v == w && done[i].outcome.Committed? == done[j].outcome.Committed? && i < j)
  }

  /** `order` lists the transactions that did not abort, each once, by `Before`. */
  ghost predicate SerialOrder(done: seq<TxRecord>, order: seq<nat>) {
    && (forall p :: 0 <= p < |order| ==> order[p] < |done| && !done[order[p]].outcome.Aborted?)
    && (forall p, q :: 0 <= p < q < |order| ==> Before(done, order[p], order[q]))
    && (forall i :: 0 <= i < |done| && !done[i].outcome.Aborted? ==> i in order)
  }

  // ---- Such an order exists ----

  lemma BeforeTotal(done: seq<TxRecord>, i: nat, j: nat, k: nat)
    requires i < |done| && j < |done| && k < |done|
    ensures i == j || Before(done, i, j) || Before(done, j, i)
    ensures !(Before(done, i, j) && Before(done, j, i))
    ensures Before(done, i, j) && Before(done, j, k) ==> Before(done, i, k)
  {
  }

  lemma BeforeKept(done: seq<TxRecord>, r: TxRecord, i: nat, j: nat)
    requires i < |done| && j < |done|
    ensures Before(done + [r], i, j) == Before(done, i, j)
  {
  }

  /** Where transaction `i` goes in an order that does not have it yet. */
  function Slot(done: seq<TxRecord>, order: seq<nat>, i: nat): (n: nat)
    requires i < |done| && forall p :: 0 <= p < |order| ==> order[p] < |done|
    ensures n <= |order|
    ensures n > 0 ==> Before(done, order[n - 1], i)
    ensures forall p :: n <= p < |order| ==> !Before(done, order[p], i)
  {
    if order == [] then 0
    else if Before(done, order[|order| - 1], i) then |order|
    else Slot(done, order[..|order| - 1], i)
  }

  lemma {:induction false} SerialOrderExists(done: seq<TxRecord>) returns (order: seq<nat>)
    ensures SerialOrder(done, order)
  {
    if done == [] {
      order := [];
    } else {
      var n := |done| - 1;
      var init, r := done[..n], done[n];
      var prev := SerialOrderExists(init);
      assert done == init + [r];
      forall i: nat, j: nat | i < n && j < n ensures Before(done, i, j) == Before(init, i, j) {
        BeforeKept(init, r, i, j);
      }
      if r.outcome.Aborted? {
        order := prev;
      } else {
        var k := Slot(done, prev, n);
        order := prev[..k] + [n] + prev[k..];
        Placed(done, prev, n, k, order);
      }
    }
  }

  lemma PlacedBefore(done: seq<TxRecord>, prev: seq<nat>, n: nat, k: nat, order: seq<nat>, p: nat, q: nat)
    requires n < |done| && forall i :: 0 <= i < |prev| ==> prev[i] < n
    requires forall i, j :: 0 <= i < j < |prev| ==> Before(done, prev[i], prev[j])
    requires k <= |prev| && order == prev[..k] + [n] + prev[k..] && p < q < |order|
    requires k > 0 ==> Before(done, prev[k - 1], n)
    requires forall i :: k <= i < |prev| ==> !Before(done, prev[i], n)
    ensures forall i :: 0 <= i < |order| ==> order[i] < |done|
    ensures Before(done, order[p], order[q])
  {
    if q == k {
      assert order[p] == prev[p];
      if p < k - 1 {
        BeforeTotal(done, prev[p], prev[k - 1], n);
      }
    } else if p == k {
      assert order[q] == prev[q - 1];
      BeforeTotal(done, prev[q - 1], n, n);
    } else {
      assert order[p] == prev[if p < k then p else p - 1];
      assert order[q] == prev[if q < k then q else q - 1];
    }
  }

  lemma Placed(done: seq<TxRecord>, prev: seq<nat>, n: nat, k: nat, order: seq<nat>)
    requires n == |done| - 1 && !done[n].outcome.Aborted?
    requires forall p :: 0 <= p < |prev| ==> prev[p] < n && !done[prev[p]].outcome.Aborted?
    requires forall p, q :: 0 <= p < q < |prev| ==> Before(done, prev[p], prev[q])
    requires forall i :: 0 <= i < n && !done[i].outcome.Aborted? ==> i in prev
    requires k <= |prev| && order == prev[..k] + [n] + prev[k..]
    requires k > 0 ==> Before(done, prev[k - 1], n)
    requires forall p :: k <= p < |prev| ==> !Before(done, prev[p], n)
    ensures SerialOrder(done, order)
  {
    forall p, q | 0 <= p < q < |order| ensures Before(done, order[p], order[q]) {
      PlacedBefore(done, prev, n, k, order, p, q);
    }
    forall i | 0 <= i < |done| && !done[i].outcome.Aborted? ensures i in order {
      if i == n {
        assert order[k] == n;
      } else {
        var p :| 0 <= p < |prev| && prev[p] == i;
        assert order[if p < k then p else p + 1] == i;
      }
    }
  }

  // ---- Replaying it gives the same reads and the same memory ----

  /** The value of `a` when exactly the transactions in `S` have written. */
  ghost function ValueIn(mem0: Memory, done: seq<TxRecord>, S: set<nat>, a: Addr): Val {
    if done == [] then Get(mem0, a)
    else
      var n := |done| - 1;
      if n in S && Wrote(done[n], a).Some? then Wrote(done[n], a).value
      else ValueIn(mem0, done[..n], S, a)
  }

  lemma {:induction false} ValueInIsValueAt(mem0: Memory, done: seq<TxRecord>, S: set<nat>, v: nat, a: Addr)
    requires forall d :: 0 <= d < |done| && Wrote(done[d], a).Some? ==> (d in S <==> done[d].outcome.wv <= v)
    ensures ValueIn(mem0, done, S, a) == ValueAt(mem0, done, v, a)
  {
    if done != [] {
      ValueInIsValueAt(mem0, done[..|done| - 1], S, v, a);
    }
  }

  /** Sets that differ only in transactions that did not write `a`. */
  lemma {:induction false} ValueInAgree(mem0: Memory, done: seq<TxRecord>, S: set<nat>, S': set<nat>, a: Addr)
    requires forall d :: 0 <= d < |done| && Wrote(done[d], a).Some? ==> (d in S <==> d in S')
    ensures ValueIn(mem0, done, S, a) == ValueIn(mem0, done, S', a)
  {
    if done != [] {
      ValueInAgree(mem0, done[..|done| - 1], S, S', a);
    }
  }

  lemma {:induction false} ValueInLatest(mem0: Memory, done: seq<TxRecord>, S: set<nat>, x: nat, a: Addr)
    requires x < |done| && x in S && Wrote(done[x], a).Some?
    requires forall d :: x < d < |done| && Wrote(done[d], a).Some? ==> d !in S
    ensures ValueIn(mem0, done, S, a) == Wrote(done[x], a).value
  {
    if x < |done| - 1 {
      ValueInLatest(mem0, done[..|done| - 1], S, x, a);
    }
  }

  lemma {:induction false} RunOpsGet(ops: seq<Op>, m: Memory, a: Addr)
    ensures Get(RunOps(ops, m), a) == if StoredBy(ops, a).Some? then StoredBy(ops, a).value else Get(m, a)
  {
    if ops != [] {
      RunOpsGet(ops[..|ops| - 1], m, a);
    }
  }

  ghost function Firsts(order: seq<nat>, n: nat): set<nat>
    requires n <= |order|
  {
    set p | 0 <= p < n :: order[p]
  }

  /** The transactions before position `n` are those that come before the one at `n`. */
  lemma FirstsBefore(done: seq<TxRecord>, order: seq<nat>, n: nat, y: nat)
    requires SerialOrder(done, order) && n < |order| && y < |done| && !done[y].outcome.Aborted?
    ensures y in Firsts(order, n) <==> Before(done, y, order[n])
  {
    var q :| 0 <= q < |order| && order[q] == y;
    BeforeTotal(done, y, order[n], y);
    if y in Firsts(order, n) {
      var p :| 0 <= p < n && order[p] == y;
    }
  }

  /** What a transaction saw at its read version is what memory holds at its turn. */
  lemma SeenAtTurn(s: State, order: seq<nat>, n: nat, a: Addr)
    requires Inv(s) && SerialOrder(s.done, order) && n < |order|
    requires a in s.done[order[n]].seen
    ensures s.done[order[n]].seen[a] == ValueIn(s.mem0, s.done, Firsts(order, n), a)
  {
    var x := order[n];
    var r := s.done[x];
    assert RecordInv(s, x);
    forall y | 0 <= y < |s.done| && Wrote(s.done[y], a).Some?
      ensures y in Firsts(order, n) <==> s.done[y].outcome.wv <= r.rv
    {
      FirstsBefore(s.done, order, n, y);
      assert y != x && r.outcome.Committed? ==> s.done[y].outcome.wv <= r.rv || r.outcome.wv < s.done[y].outcome.wv;
    }
    ValueInIsValueAt(s.mem0, s.done, Firsts(order, n), r.rv, a);
  }

  lemma WritersAscend(done: seq<TxRecord>, d: nat, e: nat, a: Addr, k: Stripe)
    requires CommitsAscend(done) && d < e < |done| && Wrote(done[d], a).Some? && Wrote(done[e], a).Some?
    requires k == PsLock(a)
    ensures done[d].outcome.wv < done[e].outcome.wv
  {
  }

  /** Among the transactions executed so far, the one at position `n` is the last to write `a`. */
  lemma LatestAtTurn(s: State, order: seq<nat>, n: nat, a: Addr)
    requires Inv(s) && SerialOrder(s.done, order) && n < |order|
    requires Wrote(s.done[order[n]], a).Some?
    ensures ValueIn(s.mem0, s.done, Firsts(order, n + 1), a) == Wrote(s.done[order[n]], a).value
  {
    var x := order[n];
    assert Firsts(order, n + 1) == Firsts(order, n) + {x};
    forall d | x < d < |s.done| && Wrote(s.done[d], a).Some? ensures d !in Firsts(order, n + 1) {
      FirstsBefore(s.done, order, n, d);
      WritersAscend(s.done, x, d, a, PsLock(a));
    }
    ValueInLatest(s.mem0, s.done, Firsts(order, n + 1), x, a);
  }

  /** A transaction that does not commit a store to `a` leaves it as it was at its turn: what it
      stored there, if anything, was there already. */
  lemma UnwrittenAtTurn(s: State, order: seq<nat>, n: nat, a: Addr)
    requires Inv(s) && SerialOrder(s.done, order) && n < |order|
    requires Wrote(s.done[order[n]], a).None?
    ensures ValueIn(s.mem0, s.done, Firsts(order, n + 1), a) == ValueIn(s.mem0, s.done, Firsts(order, n), a)
    ensures var stored := StoredBy(s.done[order[n]].ops, a);
            stored.Some? ==> stored.value == ValueIn(s.mem0, s.done, Firsts(order, n), a)
  {
    var r := s.done[order[n]];
    assert Firsts(order, n + 1) == Firsts(order, n) + {order[n]};
    ValueInAgree(s.mem0, s.done, Firsts(order, n), Firsts(order, n + 1), a);
    assert RecordInv(s, order[n]);
    var es := if r.outcome.Committed? then r.outcome.writes else [];
    assert LastStore(es, a).None? && StoresOk(r.ops, r.seen, es);
    if StoredBy(r.ops, a).Some? {
      SeenAtTurn(s, order, n, a);
    }
  }

  /** Executing the transactions one at a time reproduces memory, step by step. */
  lemma {:induction false} ReplayMemory(s: State, order: seq<nat>, n: nat, a: Addr)
    requires Inv(s) && SerialOrder(s.done, order) && n <= |order|
    ensures Get(MemAfter(s.mem0, s.done, order, n), a) == ValueIn(s.mem0, s.done, Firsts(order, n), a)
  {
    if n == 0 {
      ValueInNone(s.mem0, s.done, a);
      assert Firsts(order, 0) == {};
    } else {
      ReplayMemory(s, order, n - 1, a);
      ReplayOne(s, order, n - 1, a, MemAfter(s.mem0, s.done, order, n - 1));
    }
  }

  lemma ReplayOne(s: State, order: seq<nat>, n: nat, a: Addr, m: Memory)
    requires Inv(s) && SerialOrder(s.done, order) && n < |order|
    requires Get(m, a) == ValueIn(s.mem0, s.done, Firsts(order, n), a)
    ensures Get(RunOps(s.done[order[n]].ops, m), a) == ValueIn(s.mem0, s.done, Firsts(order, n + 1), a)
  {
    var r := s.done[order[n]];
    RunOpsGet(r.ops, m, a);
    if Wrote(r, a).Some? {
      LatestAtTurn(s, order, n, a);
      assert RecordInv(s, order[n]);
      assert StoredBy(r.ops, a) == LastStore(r.outcome.writes, a);
    } else {
      UnwrittenAtTurn(s, order, n, a);
    }
  }

  lemma {:induction false} ValueInNone(mem0: Memory, done: seq<TxRecord>, a: Addr)
    ensures ValueIn(mem0, done, {}, a) == Get(mem0, a)
  {
    if done != [] {
      ValueInNone(mem0, done[..|done| - 1], a);
    }
  }

  lemma ReplayLegal(s: State, order: seq<nat>, n: nat)
    requires Inv(s) && SerialOrder(s.done, order) && n < |order|
    ensures Legal(s.done[order[n]].ops, MemAfter(s.mem0, s.done, order, n))
  {
    var r, m := s.done[order[n]], MemAfter(s.mem0, s.done, order, n);
    assert RecordInv(s, order[n]);
    forall j | 0 <= j < |r.ops| && r.ops[j].Load?
      ensures r.ops[j].val == Get(RunOps(r.ops[..j], m), r.ops[j].addr)
    {
      var a := r.ops[j].addr;
      assert LoadOk(r.ops[..j], r.seen, a, r.ops[j].val);
      RunOpsGet(r.ops[..j], m, a);
      if StoredBy(r.ops[..j], a).None? {
        SeenAtTurn(s, order, n, a);
        ReplayMemory(s, order, n, a);
      }
    }
  }

  /** No thread has committed stores that are not in memory yet. */
  ghost predicate Quiescent(s: State) {
    forall t :: 0 <= t < |s.threads| ==> !s.threads[t].pc.WriteBack?
  }

  /** Strict serializability.  In every state of every run, the transactions that have committed can
      be executed one at a time, in any order that goes by their versions, with every load returning what
      it returned; such an order respects real time; and the memory this leaves is the memory of the
      machine, once no write-back is under way.  The operations of the transactions are those that their
      threads called for. */
  lemma StrictSerializability(run: seq<State>, i: nat, order: seq<nat>)
    requires Run(run) && i < |run| && SerialOrder(run[i].done, order)
    ensures var s := run[i];
            && (forall n :: 0 <= n < |order| ==> Legal(s.done[order[n]].ops, MemAfter(s.mem0, s.done, order, n)))
            && (forall p, q :: 0 <= p < |order| && 0 <= q < |order| && order[p] < s.done[order[q]].start ==> p < q)
            && (Quiescent(s) ==> forall a: Addr :: Get(s.mem, a) == Get(MemAfter(s.mem0, s.done, order, |order|), a))
    ensures AsCalled(run, i) && run[i].mem0 == run[0].mem
  {
    AllAsCalled(run, i);
    var s := run[i];
    InvRun(run, i);
    forall n | 0 <= n < |order| ensures Legal(s.done[order[n]].ops, MemAfter(s.mem0, s.done, order, n)) {
      ReplayLegal(s, order, n);
    }
    forall p, q | 0 <= p < |order| && 0 <= q < |order| && order[p] < s.done[order[q]].start ensures p < q {
      RealTime(s, order, p, q);
    }
    if Quiescent(s) {
      forall a: Addr ensures Get(s.mem, a) == Get(MemAfter(s.mem0, s.done, order, |order|), a) {
        FinalMemory(s, order, a);
      }
    }
  }

  lemma RealTime(s: State, order: seq<nat>, p: nat, q: nat)
    requires Inv(s) && SerialOrder(s.done, order) && p < |order| && q < |order|
    requires order[p] < s.done[order[q]].start
    ensures p < q
  {
    var i, j := order[p], order[q];
    assert RecordInv(s, j);
    assert SerialVersion(s.done[i]) <= s.done[j].rv;
    assert Before(s.done, i, j);
    BeforeTotal(s.done, i, j, i);
  }

  lemma FinalMemory(s: State, order: seq<nat>, a: Addr)
    requires Inv(s) && SerialOrder(s.done, order) && Quiescent(s)
    ensures Get(s.mem, a) == Get(MemAfter(s.mem0, s.done, order, |order|), a)
  {
    ReplayMemory(s, order, |order|, a);
    assert MemOkAt(s, a);
    assert Pending(s, a).None?;
    forall d | 0 <= d < |s.done| && Wrote(s.done[d], a).Some?
      ensures d in Firsts(order, |order|) <==> s.done[d].outcome.wv <= s.clock
    {
      assert RecordInv(s, d) && d in order;
    }
    ValueInIsValueAt(s.mem0, s.done, Firsts(order, |order|), s.clock, a);
  }

  // ---- Opacity ----

  /** The first `n` transactions of the serial order are those visible at version `rv`. */
  ghost predicate Visible(done: seq<TxRecord>, order: seq<nat>, rv: nat, n: nat) {
    && n <= |order|
    && forall p :: 0 <= p < |order| && order[p] < |done| ==> (p < n <==> SerialVersion(done[order[p]]) <= rv)
  }

  lemma {:induction false} VisiblePrefix(done: seq<TxRecord>, order: seq<nat>, rv: nat, m: nat) returns (n: nat)
    requires SerialOrder(done, order) && m <= |order|
    requires forall p :: m <= p < |order| ==> SerialVersion(done[order[p]]) > rv
    ensures Visible(done, order, rv, n)
  {
    if m == 0 {
      n := 0;
    } else if SerialVersion(done[order[m - 1]]) <= rv {
      n := m;
      forall p | 0 <= p < m ensures SerialVersion(done[order[p]]) <= rv {
        assert p < m - 1 ==> Before(done, order[p], order[m - 1]);
      }
    } else {
      n := VisiblePrefix(done, order, rv, m - 1);
    }
  }

  /** The same of those that have written. */
  ghost predicate WritesVisible(done: seq<TxRecord>, order: seq<nat>, rv: nat, n: nat) {
    && n <= |order|
    && forall p :: 0 <= p < |order| && order[p] < |done| && done[order[p]].outcome.Committed? ==>
         (p < n <==> SerialVersion(done[order[p]]) <= rv)
  }

  /** Whoever reads at version `rv` reads the memory left by the transactions visible at `rv`. */
  lemma SnapshotLegal(s: State, order: seq<nat>, n: nat, rv: nat, ops: seq<Op>, seen: map<Addr, Val>)
    requires Inv(s) && SerialOrder(s.done, order) && WritesVisible(s.done, order, rv, n)
    requires SeenOk(s, rv, seen) && LoadsOk(ops, seen)
    ensures Legal(ops, MemAfter(s.mem0, s.done, order, n))
  {
    var m := MemAfter(s.mem0, s.done, order, n);
    forall j | 0 <= j < |ops| && ops[j].Load? ensures ops[j].val == Get(RunOps(ops[..j], m), ops[j].addr) {
      var a := ops[j].addr;
      assert LoadOk(ops[..j], seen, a, ops[j].val);
      RunOpsGet(ops[..j], m, a);
      ReplayMemory(s, order, n, a);
      forall d | 0 <= d < |s.done| && Wrote(s.done[d], a).Some?
        ensures d in Firsts(order, n) <==> s.done[d].outcome.wv <= rv
      {
        var p :| 0 <= p < |order| && order[p] == d;
      }
      ValueInIsValueAt(s.mem0, s.done, Firsts(order, n), rv, a);
    }
  }

  /** The transactions that had finished at `start` are among the first `n` of the order. */
  ghost predicate AllBefore(order: seq<nat>, start: nat, n: nat) {
    forall p :: 0 <= p < |order| && order[p] < start ==> p < n
  }

  /** The operations of a transaction with read version `rv` are what it would have done alone, on
      the memory left by exactly the transactions of the serial order that are visible at `rv`; all
      that had finished when it started are among them. */
  ghost predicate Explained(s: State, order: seq<nat>, rv: nat, start: nat, ops: seq<Op>)
    requires SerialOrder(s.done, order)
  {
    exists n :: && Visible(s.done, order, rv, n)
                && Legal(ops, MemAfter(s.mem0, s.done, order, n))
                && AllBefore(order, start, n)
  }

  lemma Explain(s: State, order: seq<nat>, rv: nat, start: nat, ops: seq<Op>, seen: map<Addr, Val>)
    requires Inv(s) && SerialOrder(s.done, order)
    requires SeenOk(s, rv, seen) && LoadsOk(ops, seen) && StartOk(s.done, start, rv)
    ensures Explained(s, order, rv, start, ops)
  {
    var n := VisiblePrefix(s.done, order, rv, |order|);
    SnapshotLegal(s, order, n, rv, ops, seen);
    assert AllBefore(order, start, n);
  }

  /** Opacity.  In every state of every run, every transaction, whether it is running, committed or
      aborted, is explained by its read version, and has the operations that its thread called for. */
  lemma Opacity(run: seq<State>, i: nat, order: seq<nat>)
    requires Run(run) && i < |run| && SerialOrder(run[i].done, order)
    ensures forall t :: 0 <= t < |run[i].threads| ==>
              var T := run[i].threads[t]; Explained(run[i], order, T.rv, T.start, T.ops)
    ensures forall d :: 0 <= d < |run[i].done| ==>
              var r := run[i].done[d]; Explained(run[i], order, r.rv, r.start, r.ops)
    ensures AsCalled(run, i) && run[i].mem0 == run[0].mem
  {
    AllAsCalled(run, i);
    var s := run[i];
    InvRun(run, i);
    forall t | 0 <= t < |s.threads| ensures var T := s.threads[t]; Explained(s, order, T.rv, T.start, T.ops) {
      assert ThreadInv(s, t);
      Explain(s, order, s.threads[t].rv, s.threads[t].start, s.threads[t].ops, s.threads[t].seen);
    }
    forall d | 0 <= d < |s.done| ensures var r := s.done[d]; Explained(s, order, r.rv, r.start, r.ops) {
      assert RecordInv(s, d);
      Explain(s, order, s.done[d].rv, s.done[d].start, s.done[d].ops, s.done[d].seen);
    }
  }

  // ---- Borrowed versions, and the assertions of the code ----

  /** Two commits that share a write version wrote disjoint stripes and read none of each other's. */
  lemma BorrowedVersions(run: seq<State>, i: nat)
    requires Run(run) && i < |run|
    ensures forall d: nat, e: nat, a: Addr, b: Addr ::
              Borrowed(run[i].done, d, e) && Wrote(run[i].done[d], a).Some? &&
                  (Wrote(run[i].done[e], b).Some? || b in run[i].done[e].seen) ==>
                PsLock(a) != PsLock(b)
  {
    InvRun(run, i);
    forall d: nat, e: nat, a: Addr, b: Addr | Borrowed(run[i].done, d, e) && Wrote(run[i].done[d], a).Some?
                                              && (Wrote(run[i].done[e], b).Some? || b in run[i].done[e].seen)
      ensures PsLock(a) != PsLock(b)
    {
      assert RecordInv(run[i], e);
    }
  }

  /** Two transactions that committed with one write version. */
  ghost predicate Borrowed(done: seq<TxRecord>, d: nat, e: nat) {
    && d < |done| && e < |done| && d != e && done[d].outcome.Committed? && done[e].outcome.Committed?
    && done[d].outcome.wv == done[e].outcome.wv
  }

  /** A thread about to drop or restore the lock of a write-set entry owns it through that entry, and
      a committed one is about to raise its version. */
  lemma LockAssertions(run: seq<State>, i: nat, t: Tid, j: nat)
    requires Run(run) && i < |run| && t < |run[i].threads| && j in run[i].threads[t].held
    ensures var T := run[i].threads[t];
            && j < |T.wrSet.entries|
            && |run[i].locks| == TABSZ
            && run[i].locks[LockOf(T, j)] == Locked(t, j)
            && (T.pc.Validate? || T.pc.WriteBack? || T.pc.Release? ==> T.held[j] < T.pc.wv)
  {
    InvRun(run, i);
    assert ThreadOk(run[i].clock, run[i].locks, t, run[i].threads[t]);
  }

  /** The check that `TryFastUpdate` repeats when it meets a stripe it has locked already never fails. */
  lemma RevalidationIsRedundant(run: seq<State>, i: nat, t: Tid, j: nat)
    requires Run(run) && i < |run| && t < |run[i].threads| && j in run[i].threads[t].held
    ensures var T := run[i].threads[t];
            j < |T.wrSet.entries| && (LockOf(T, j) in T.rdSet ==> T.held[j] <= T.rv)
  {
    InvRun(run, i);
    assert ThreadOk(run[i].clock, run[i].locks, t, run[i].threads[t]);
  }
}