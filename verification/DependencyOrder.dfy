/** The order in which the variables of a record are drawn: every parent before its children. */
module DependencyOrder {
  import opened NetGraph
  import opened Net

  const DATA_PRECISION := 100
  const DATA_INIT := 2

  // ---- The search from a leaf ----

  /** Every parent of an entry stands at a later place, or is still to come. */
  ghost predicate ParentsFollow(parents: Graph, dependency: seq<nat>, queue: seq<nat>) {
    forall i, p :: 0 <= i < |dependency| && Edge(parents, dependency[i], p) ==> p in dependency[i + 1..] || p in queue
  }

  lemma {:induction false} TotalOfList(g: Graph, queue: seq<nat>, v: nat, k: nat)
    requires Wf(g) && Acyclic(g) && InRange(g, queue) && v < |g| && k <= |g[v]|
    ensures InRange(g, queue + g[v][..k])
    ensures Total(g, queue + g[v][..k]) == Total(g, queue) + WeightOfFirst(g, v, k)
  {
    if k == 0 {
      assert queue + g[v][..0] == queue;
    } else {
      TotalOfList(g, queue, v, k - 1);
      assert g[v][k - 1] in g[v];
      TotalAppend(g, queue + g[v][..k - 1], g[v][k - 1]);
      assert queue + g[v][..k] == queue + g[v][..k - 1] + [g[v][k - 1]];
    }
  }

  lemma ParentsStillFollow(parents: Graph, dependency: seq<nat>, queue: seq<nat>)
    requires ParentsFollow(parents, dependency, queue) && queue != [] && queue[0] < |parents|
    ensures ParentsFollow(parents, dependency + [queue[0]], queue[1..] + parents[queue[0]])
  {
    var longer, rest := dependency + [queue[0]], queue[1..] + parents[queue[0]];
    assert queue == [queue[0]] + queue[1..];
    forall i, p | 0 <= i < |longer| && Edge(parents, longer[i], p) ensures p in longer[i + 1..] || p in rest {
      if i < |dependency| {
        assert longer[i + 1..] == dependency[i + 1..] + [queue[0]];
        assert Edge(parents, dependency[i], p);
        assert p in dependency[i + 1..] || p in queue;
      } else {
        assert p in parents[queue[0]];
      }
    }
  }

  ghost predicate AllReached(parents: Graph, v: nat, ids: seq<nat>) {
    forall u :: u in ids ==> Reach(parents, v, u)
  }

  lemma ParentsReached(parents: Graph, v: nat, queue: seq<nat>)
    requires AllReached(parents, v, queue) && queue != [] && queue[0] < |parents|
    ensures Reach(parents, v, queue[0]) && AllReached(parents, v, queue[1..] + parents[queue[0]])
  {
    assert queue[0] in queue;
    forall u | u in queue[1..] + parents[queue[0]] ensures Reach(parents, v, u) {
      if u in parents[queue[0]] {
        ReachEdge(parents, v, queue[0], u);
      } else {
        assert u in queue;
      }
    }
  }

  /** Nothing that can be reached is left out. */
  lemma ReachedAll(parents: Graph, v: nat, dependency: seq<nat>)
    requires ParentsFollow(parents, dependency, []) && v in dependency && AllReached(parents, v, dependency)
    ensures forall u :: u in dependency <==> Reach(parents, v, u)
  {
    var nodes := set u | u in dependency;
    assert Closed(parents, nodes) by {
      forall a, b | a in nodes && Edge(parents, a, b) ensures b in nodes {
        ParentLater(parents, dependency, a, b);
      }
    }
    forall u | Reach(parents, v, u) ensures u in dependency {
      ReachStays(parents, nodes, v, u);
    }
  }

  lemma ParentLater(parents: Graph, dependency: seq<nat>, a: nat, b: nat)
    requires ParentsFollow(parents, dependency, []) && a in dependency && Edge(parents, a, b)
    ensures b in dependency
  {
    var i :| 0 <= i < |dependency| && dependency[i] == a;
    assert Edge(parents, dependency[i], b);
    var none: seq<nat> := [];
    assert b in dependency[i + 1..] || b in none;
  }

  /** Walks from `v` to its parents, their parents and so on, with no memory of where it has been: it ends
      because the net has no cycle. */
  method FindDependencies(parents: Graph, v: nat, done: set<nat>) returns (dependency: seq<nat>, done': set<nat>)
    requires Wf(parents) && Acyclic(parents) && v < |parents|
    ensures InRange(parents, dependency) && v in dependency && ParentsFollow(parents, dependency, [])
    ensures forall u :: u in dependency <==> Reach(parents, v, u)
    ensures forall u :: u in done' <==> u in done || u in dependency
  {
    var queue: seq<nat> := [v];
    dependency, done' := [], done;
    ReachSelf(parents, v);
    while queue != []
      invariant InRange(parents, dependency) && InRange(parents, queue)
      invariant v in dependency || v in queue
      invariant ParentsFollow(parents, dependency, queue)
      invariant AllReached(parents, v, dependency) && AllReached(parents, v, queue)
      invariant forall u :: u in done' <==> u in done || u in dependency
      decreases Total(parents, queue)
    {
      var id := queue[0];
      TotalOfList(parents, queue[1..], id, |parents[id]|);
      assert parents[id][..|parents[id]|] == parents[id];
      ParentsStillFollow(parents, dependency, queue);
      ParentsReached(parents, v, queue);
      done' := done' + {id};
      dependency := dependency + [id];
      queue := PushAll(parents[id], queue[1..]);
    }
    ReachedAll(parents, v, dependency);
  }

  method PushAll(ids: seq<nat>, queue: seq<nat>) returns (longer: seq<nat>)
    ensures longer == queue + ids
  {
    longer := queue;
    for i := 0 to |ids|
      invariant longer == queue + ids[..i]
    {
      longer := longer + [ids[i]];
    }
  }

  // ---- The order ----

  /** No variable twice, and the parents of each before it. */
  ghost predicate OrderOk(parents: Graph, order: seq<nat>) {
    && InRange(parents, order)
    && (forall i, j :: 0 <= i < j < |order| ==> order[i] != order[j])
    && (forall i, p :: 0 <= i < |order| && Edge(parents, order[i], p) ==> p in order[..i])
  }

  lemma OrderMore(parents: Graph, order: seq<nat>, id: nat)
    requires OrderOk(parents, order) && id < |parents| && id !in order
    requires forall p :: Edge(parents, id, p) ==> p in order
    ensures OrderOk(parents, order + [id])
  {
    var longer := order + [id];
    forall i, p | 0 <= i < |longer| && Edge(parents, longer[i], p) ensures p in longer[..i] {
      if i < |order| {
        assert longer[..i] == order[..i];
        assert Edge(parents, order[i], p);
      } else {
        assert longer[..i] == order;
      }
    }
  }

  /** Takes the entries from the back and keeps the first sight of each, which is its last occurrence. */
  method Place(parents: Graph, dependency: seq<nat>, order: seq<nat>) returns (longer: seq<nat>)
    requires OrderOk(parents, order) && InRange(parents, dependency) && ParentsFollow(parents, dependency, [])
    ensures OrderOk(parents, longer) && order <= longer
    ensures forall u :: u in longer <==> u in order || u in dependency
  {
    longer := order;
    var n: nat := |dependency|;
    while n > 0
      invariant 0 <= n <= |dependency| && OrderOk(parents, longer) && order <= longer
      invariant forall u :: u in longer <==> u in order || u in dependency[n..]
    {
      n := n - 1;
      var id := dependency[n];
      assert dependency[n..] == [id] + dependency[n + 1..];
      if id !in longer {
        forall p | Edge(parents, id, p) ensures p in longer {
          assert Edge(parents, dependency[n], p);
        }
        OrderMore(parents, longer, id);
        longer := longer + [id];
      }
    }
    assert dependency[0..] == dependency;
  }

  /** The first clear bit from `start` on, or -1. */
  method FindClear(bits: set<nat>, numBit: nat, start: nat) returns (index: int)
    ensures index == -1 || start <= index < numBit
    ensures index >= 0 ==> index !in bits
    ensures forall u :: start <= u < (if index < 0 then numBit else index) ==> u in bits
  {
    var i := start;
    while i < numBit
      invariant start <= i
      invariant forall u :: start <= u < i ==> u in bits
    {
      if i !in bits {
        return i;
      }
      i := i + 1;
    }
    return -1;
  }

  ghost predicate LeavesPlaced(children: Graph, order: seq<nat>, bound: int) {
    forall u :: 0 <= u < bound && u < |children| && children[u] == [] ==> u in order
  }

  /** All variables, each once, with parents before children. */
  method FindOrder(net: Net) returns (order: seq<nat>)
    requires net.Valid() && Acyclic(net.children)
    ensures OrderOk(net.parents, order)
    ensures forall v: nat :: v in order <==> v < net.numNode
    ensures |order| == net.numNode
  {
    var parents, children := net.parents, net.children;
    MirroredIsMirror(children, parents);
    AcyclicMirror(children, parents);
    order := [];
    var done: set<nat> := {};
    var v := FindClear(done, net.numNode, 0);
    while v >= 0
      invariant -1 <= v < net.numNode
      invariant OrderOk(parents, order) && forall u :: u in done ==> u in order
      invariant LeavesPlaced(children, order, if v < 0 then net.numNode else v)
      decreases if v < 0 then 0 else net.numNode - v
    {
      if |children[v]| == 0 {
        var dependency, done' := FindDependencies(parents, v, done);
        var longer := Place(parents, dependency, order);
        done, order := done', longer;
      }
      v := FindClear(done, net.numNode, v + 1);
    }
    AllPlaced(children, parents, order);
    EachOnce(order, net.numNode);
  }

  /** Every variable is an ancestor of a leaf, and the order holds the leaves and all their ancestors. */
  lemma AllPlaced(children: Graph, parents: Graph, order: seq<nat>)
    requires Wf(children) && Mirror(children, parents) && Acyclic(children)
    requires OrderOk(parents, order) && LeavesPlaced(children, order, |children|)
    ensures forall v: nat :: v in order <==> v < |children|
  {
    var placed := set u | u in order;
    forall a, b | a in placed && Edge(parents, a, b) ensures b in placed {
      var i :| 0 <= i < |order| && order[i] == a;
      assert Edge(parents, order[i], b);
    }
    forall v: nat | v < |children| ensures v in order {
      var leaf := ReachesLeaf(children, v);
      ReachMirror(children, parents, v, leaf);
      ReachStays(parents, placed, leaf, v);
    }
  }

  ghost function Elements(s: seq<nat>): set<nat> {
    set v | v in s
  }

  lemma EachOnce(s: seq<nat>, n: nat)
    requires forall i, j :: 0 <= i < j < |s| ==> s[i] != s[j]
    requires forall v: nat :: v in s <==> v < n
    ensures |s| == n
  {
    DistinctSize(s);
    assert Elements(s) == Nodes(n);
    NodesSize(n);
  }

  lemma {:induction false} DistinctSize(s: seq<nat>)
    requires forall i, j :: 0 <= i < j < |s| ==> s[i] != s[j]
    ensures |Elements(s)| == |s|
  {
    if s != [] {
      var n := |s| - 1;
      DistinctSize(s[..n]);
      assert s == s[..n] + [s[n]];
      assert Elements(s) == Elements(s[..n]) + {s[n]};
    }
  }

  lemma {:induction false} NodesSize(n: nat)
    ensures |Nodes(n)| == n
  {
    if n > 0 {
      NodesSize(n - 1);
    }
  }

  // ---- Drawing a record ----

  function Pow2(n: nat): nat {
    if n == 0 then 1 else 2 * Pow2(n - 1)
  }

  /** The row of the threshold table that the values of the first `k` parents select. */
  ghost function Selected(ids: seq<nat>, record: seq<int>, k: nat): int
    requires k <= |ids| && forall i :: 0 <= i < k ==> ids[i] < |record|
  {
    if k == 0 then 0 else 2 * Selected(ids, record, k - 1) + record[ids[k - 1]]
  }

  lemma {:induction false} SelectedInTable(ids: seq<nat>, record: seq<int>, k: nat)
    requires k <= |ids| && forall i :: 0 <= i < k ==> ids[i] < |record| && 0 <= record[ids[i]] <= 1
    ensures 0 <= Selected(ids, record, k) < Pow2(k)
  {
    if k > 0 {
      SelectedInTable(ids, record, k - 1);
    }
  }

  /** The row is the one whose number has the values of the variables `ids` for its bits, the first of them on top. */
  ghost predicate RowFor(ids: seq<nat>, record: seq<int>, row: int) {
    && 0 <= row < Pow2(|ids|)
    && forall i :: 0 <= i < |ids| ==> ids[i] < |record| && BitOf(row, |ids| - 1 - i) == record[ids[i]]
  }

  /** Bit `n` of the number, bit 0 being the last. */
  function BitOf(row: int, n: nat): (bit: int)
    ensures 0 <= bit <= 1
    decreases n
  {
    if n == 0 then row % 2 else BitOf(row / 2, n - 1)
  }

  lemma {:induction false} SelectedRow(ids: seq<nat>, record: seq<int>, k: nat)
    requires k <= |ids| && forall i :: 0 <= i < k ==> ids[i] < |record| && 0 <= record[ids[i]] <= 1
    ensures RowFor(ids[..k], record, Selected(ids, record, k))
  {
    SelectedInTable(ids, record, k);
    if k > 0 {
      SelectedRow(ids, record, k - 1);
      var below, bit := Selected(ids, record, k - 1), record[ids[k - 1]];
      SelectedInTable(ids, record, k - 1);
      forall i | 0 <= i < k ensures BitOf(2 * below + bit, k - 1 - i) == record[ids[i]] {
        if i < k - 1 {
          assert ids[..k - 1][i] == ids[i] && (2 * below + bit) / 2 == below;
        }
      }
    }
  }

  /** Rows with the same bits are one row: the values of the parents select one row and no other. */
  lemma {:induction false} SameBits(a: int, b: int, n: nat)
    requires 0 <= a < Pow2(n) && 0 <= b < Pow2(n) && forall i :: 0 <= i < n ==> BitOf(a, i) == BitOf(b, i)
    ensures a == b
  {
    if n > 0 {
      forall i | 0 <= i < n - 1 ensures BitOf(a / 2, i) == BitOf(b / 2, i) {
        assert BitOf(a, i + 1) == BitOf(b, i + 1);
      }
      SameBits(a / 2, b / 2, n - 1);
      assert BitOf(a, 0) == BitOf(b, 0);
    }
  }

  lemma OneRow(ids: seq<nat>, record: seq<int>, a: int, b: int)
    requires RowFor(ids, record, a) && RowFor(ids, record, b)
    ensures a == b
  {
    forall i | 0 <= i < |ids| ensures BitOf(a, i) == BitOf(b, i) {
      assert BitOf(a, |ids| - 1 - (|ids| - 1 - i)) == record[ids[|ids| - 1 - i]];
    }
    SameBits(a, b, |ids|);
  }

  /** Parents with other values select another row. */
  lemma OtherRow(ids: seq<nat>, a: seq<int>, b: seq<int>, rowA: int, rowB: int)
    requires RowFor(ids, a, rowA) && RowFor(ids, b, rowB)
    ensures rowA == rowB <==> forall i :: 0 <= i < |ids| ==> a[ids[i]] == b[ids[i]]
  {
    if forall i :: 0 <= i < |ids| ==> a[ids[i]] == b[ids[i]] {
      assert RowFor(ids, b, rowA);
      OneRow(ids, b, rowA, rowB);
    }
  }

  /** Every row of a table is selected by some values of the parents. */
  lemma EveryRow(ids: seq<nat>, numVar: nat, row: int) returns (record: seq<int>)
    requires (forall i :: 0 <= i < |ids| ==> ids[i] < numVar) && 0 <= row < Pow2(|ids|)
    requires forall i, j :: 0 <= i < j < |ids| ==> ids[i] != ids[j]
    ensures |record| == numVar && RowFor(ids, record, row)
    ensures forall v :: 0 <= v < numVar ==> 0 <= record[v] <= 1
  {
    record := seq(numVar, _ => 0);
    for k := 0 to |ids|
      invariant |record| == numVar && forall v :: 0 <= v < numVar ==> 0 <= record[v] <= 1
      invariant forall i :: 0 <= i < k ==> BitOf(row, |ids| - 1 - i) == record[ids[i]]
    {
      record := record[ids[k] := BitOf(row, |ids| - 1 - k)];
    }
  }

  ghost predicate InLists(g: Graph) {
    forall v, i :: 0 <= v < |g| && 0 <= i < |g[v]| ==> g[v][i] < |g|
  }

  lemma WfInLists(g: Graph)
    requires Wf(g)
    ensures InLists(g)
  {
    forall v, i | 0 <= v < |g| && 0 <= i < |g[v]| ensures g[v][i] < |g| {
      assert g[v][i] in g[v];
    }
  }

  ghost predicate TablesOk(parents: Graph, thresholds: seq<seq<nat>>) {
    |thresholds| == |parents| && forall v :: 0 <= v < |parents| ==> |thresholds[v]| == Pow2(|parents[v]|)
  }

  /** The value of `v` is the one drawn with `rnd` from the table row that has its parents' values for its bits. */
  ghost predicate Drawn(parents: Graph, thresholds: seq<seq<nat>>, record: seq<int>, v: nat, rnd: nat)
    requires TablesOk(parents, thresholds) && |record| == |parents| && v < |parents|
  {
    exists row :: DrawnFrom(parents, thresholds, record, v, rnd, row)
  }

  ghost predicate DrawnFrom(parents: Graph, thresholds: seq<seq<nat>>, record: seq<int>, v: nat, rnd: nat, row: int)
    requires TablesOk(parents, thresholds) && |record| == |parents| && v < |parents|
  {
    RowFor(parents[v], record, row) && record[v] == if rnd < thresholds[v][row] then 1 else 0
  }

  /** The parents of the next variable have their values. */
  lemma ParentsDrawn(parents: Graph, order: seq<nat>, record: seq<int>, o: nat)
    requires OrderOk(parents, order) && InLists(parents) && |record| == |parents| && o < |order|
    requires forall i :: 0 <= i < o ==> 0 <= record[order[i]] <= 1
    ensures forall i :: 0 <= i < |parents[order[o]]| ==> 0 <= record[parents[order[o]][i]] <= 1
  {
    var v := order[o];
    forall i | 0 <= i < |parents[v]| ensures 0 <= record[parents[v][i]] <= 1 {
      assert Edge(parents, order[o], parents[v][i]);
      assert parents[v][i] in order[..o];
    }
  }

  /** A value drawn before stays right when a later variable is set. */
  lemma StaysDrawn(parents: Graph, thresholds: seq<seq<nat>>, order: seq<nat>, record: seq<int>, i: nat, o: nat,
                   x: int, rnd: nat)
    requires OrderOk(parents, order) && InLists(parents) && TablesOk(parents, thresholds) && |record| == |parents|
    requires i < o < |order| && Drawn(parents, thresholds, record, order[i], rnd)
    ensures Drawn(parents, thresholds, record[order[o] := x], order[i], rnd)
  {
    var v := order[i];
    forall j | 0 <= j < |parents[v]| ensures parents[v][j] != order[o] {
      assert Edge(parents, order[i], parents[v][j]);
      assert parents[v][j] in order[..i];
    }
    var row :| DrawnFrom(parents, thresholds, record, v, rnd, row);
    assert DrawnFrom(parents, thresholds, record[order[o] := x], v, rnd, row);
  }

  /** One record.  No parent is read before it has a value, and in the finished record every value is the
      one its parents' values call for. */
  method GenerateRecord(net: Net, order: seq<nat>, thresholds: seq<seq<nat>>,
                        random: nat -> nat) returns (record: seq<int>)
    requires net.Valid() && OrderOk(net.parents, order) && (forall v: nat :: v in order <==> v < net.numNode)
    requires TablesOk(net.parents, thresholds)
    ensures |record| == net.numNode
    ensures forall o :: 0 <= o < |order| ==>
        Drawn(net.parents, thresholds, record, order[o], random(o) % DATA_PRECISION)
    ensures forall v :: 0 <= v < net.numNode ==> 0 <= record[v] <= 1
  {
    var parents := net.parents;
    WfInLists(parents);
    record := seq(net.numNode, _ => DATA_INIT);
    for o := 0 to |order|
      invariant |record| == net.numNode
      invariant forall i :: 0 <= i < o ==> 0 <= record[order[i]] <= 1
      invariant forall i :: 0 <= i < o ==> Drawn(parents, thresholds, record, order[i], random(i) % DATA_PRECISION)
    {
      var v := order[o];
      ParentsDrawn(parents, order, record, o);
      var index := 0;
      for i := 0 to |parents[v]|
        invariant index == Selected(parents[v], record, i)
      {
        var value := record[parents[v][i]];
        assert value != DATA_INIT;
        index := index * 2 + value;
      }
      SelectedRow(parents[v], record, |parents[v]|);
      assert parents[v][..|parents[v]|] == parents[v];
      var rnd := random(o) % DATA_PRECISION;
      var x := if rnd < thresholds[v][index] then 1 else 0;
      forall i | 0 <= i < o ensures Drawn(parents, thresholds, record[v := x], order[i], random(i) % DATA_PRECISION) {
        StaysDrawn(parents, thresholds, order, record, i, o, x, random(i) % DATA_PRECISION);
      }
      NotOwnParent(parents, order, o);
      record := record[v := x];
      assert DrawnFrom(parents, thresholds, record, v, rnd, index);
    }
    forall v: nat | v < net.numNode ensures 0 <= record[v] <= 1 {
      assert v in order;
    }
  }

  lemma NotOwnParent(parents: Graph, order: seq<nat>, o: nat)
    requires OrderOk(parents, order) && o < |order|
    ensures order[o] !in parents[order[o]]
  {
    assert order[o] !in order[..o];
    assert !Edge(parents, order[o], order[o]);
  }
}
