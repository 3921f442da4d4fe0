/** Directed graphs given by adjacency lists, and what the searches of the Bayesian net decide about them. */
module NetGraph {

  type Graph = seq<seq<nat>>

  ghost predicate Wf(g: Graph) {
    forall v, c :: 0 <= v < |g| && c in g[v] ==> c < |g|
  }

  ghost predicate Edge(g: Graph, a: nat, b: nat) {
    a < |g| && b in g[a]
  }

  ghost predicate Walk(g: Graph, p: seq<nat>, a: nat, b: nat) {
    && |p| > 0 && p[0] == a && p[|p| - 1] == b
    && (forall i :: 0 <= i < |p| - 1 ==> Edge(g, p[i], p[i + 1]))
  }

  ghost predicate Reach(g: Graph, a: nat, b: nat) {
    exists p :: Walk(g, p, a, b)
  }

  /** At least one edge leads from `a` to `b`. */
  ghost predicate Beyond(g: Graph, a: nat, b: nat) {
    exists c :: Edge(g, a, c) && Reach(g, c, b)
  }

  ghost predicate OnCycle(g: Graph, v: nat) {
    Beyond(g, v, v)
  }

  ghost predicate Acyclic(g: Graph) {
    forall v :: 0 <= v < |g| ==> !OnCycle(g, v)
  }

  ghost predicate Closed(g: Graph, nodes: set<nat>) {
    forall a, b :: a in nodes && Edge(g, a, b) ==> b in nodes
  }

  lemma ReachSelf(g: Graph, a: nat)
    ensures Reach(g, a, a)
  {
    assert Walk(g, [a], a, a);
  }

  lemma ReachEdge(g: Graph, a: nat, b: nat, c: nat)
    requires Reach(g, a, b) && Edge(g, b, c)
    ensures Reach(g, a, c)
  {
    var p :| Walk(g, p, a, b);
    var q := p + [c];
    forall i | 0 <= i < |q| - 1 ensures Edge(g, q[i], q[i + 1]) {
      assert i < |p| - 1 ==> Edge(g, p[i], p[i + 1]);
    }
    assert Walk(g, q, a, c);
  }

  lemma EdgeReach(g: Graph, a: nat, b: nat, c: nat)
    requires Edge(g, a, b) && Reach(g, b, c)
    ensures Reach(g, a, c)
  {
    var p :| Walk(g, p, b, c);
    var q := [a] + p;
    forall i | 0 <= i < |q| - 1 ensures Edge(g, q[i], q[i + 1]) {
      assert i > 0 ==> Edge(g, p[i - 1], p[i]);
    }
    assert Walk(g, q, a, c);
  }

  lemma WalkTail(g: Graph, p: seq<nat>, a: nat, b: nat)
    requires Walk(g, p, a, b) && |p| > 1
    ensures Edge(g, a, p[1]) && Walk(g, p[1..], p[1], b)
  {
    assert Edge(g, p[0], p[1]);
    var q := p[1..];
    forall i | 0 <= i < |q| - 1 ensures Edge(g, q[i], q[i + 1]) {
      assert Edge(g, p[i + 1], p[i + 1 + 1]);
    }
  }

  lemma {:induction false} WalkThen(g: Graph, p: seq<nat>, a: nat, b: nat, c: nat)
    requires Walk(g, p, a, b) && Reach(g, b, c)
    ensures Reach(g, a, c)
  {
    if |p| > 1 {
      WalkTail(g, p, a, b);
      WalkThen(g, p[1..], p[1], b, c);
      EdgeReach(g, a, p[1], c);
    }
  }

  lemma ReachTransitive(g: Graph, a: nat, b: nat, c: nat)
    requires Reach(g, a, b) && Reach(g, b, c)
    ensures Reach(g, a, c)
  {
    var p :| Walk(g, p, a, b);
    WalkThen(g, p, a, b, c);
  }

  lemma {:induction false} WalkStays(g: Graph, nodes: set<nat>, p: seq<nat>, a: nat, b: nat)
    requires Closed(g, nodes) && a in nodes && Walk(g, p, a, b)
    ensures b in nodes
  {
    if |p| > 1 {
      WalkTail(g, p, a, b);
      WalkStays(g, nodes, p[1..], p[1], b);
    }
  }

  /** A closed set of nodes holds all that can be reached from it. */
  lemma ReachStays(g: Graph, nodes: set<nat>, a: nat, b: nat)
    requires Closed(g, nodes) && a in nodes && Reach(g, a, b)
    ensures b in nodes
  {
    var p :| Walk(g, p, a, b);
    WalkStays(g, nodes, p, a, b);
  }

  // ---- Adding an edge ----

  /** `h` is `g` with the edge from `a` to `b` as well. */
  ghost predicate Added(g: Graph, h: Graph, a: nat, b: nat) {
    && |h| == |g|
    && forall x, y :: Edge(h, x, y) <==> Edge(g, x, y) || (x == a && y == b)
  }

  ghost predicate Within(g: Graph, h: Graph) {
    |g| == |h| && forall x, y :: Edge(g, x, y) ==> Edge(h, x, y)
  }

  lemma ReachWithin(g: Graph, h: Graph, x: nat, y: nat)
    requires Within(g, h) && Reach(g, x, y)
    ensures Reach(h, x, y)
  {
    var p :| Walk(g, p, x, y);
    assert Walk(h, p, x, y);
  }

  lemma AcyclicWithin(g: Graph, h: Graph)
    requires Within(g, h) && Acyclic(h)
    ensures Acyclic(g)
  {
    forall v | 0 <= v < |g| ensures !OnCycle(g, v) {
      if OnCycle(g, v) {
        var c: nat :| Edge(g, v, c) && Reach(g, c, v);
        ReachWithin(g, h, c, v);
        assert OnCycle(h, v);
      }
    }
  }

  lemma {:induction false} WalkAdded(g: Graph, h: Graph, a: nat, b: nat, p: seq<nat>, x: nat, y: nat)
    requires Added(g, h, a, b) && Walk(h, p, x, y)
    ensures Reach(g, x, y) || (Reach(g, x, a) && Reach(g, b, y))
  {
    ReachSelf(g, x);
    if |p| > 1 {
      WalkTail(h, p, x, y);
      WalkAdded(g, h, a, b, p[1..], p[1], y);
      if Edge(g, x, p[1]) {
        if Reach(g, p[1], y) {
          EdgeReach(g, x, p[1], y);
        } else {
          EdgeReach(g, x, p[1], a);
        }
      }
    }
  }

  lemma AddedCloses(g: Graph, h: Graph, a: nat, b: nat)
    requires Added(g, h, a, b) && Reach(g, b, a)
    ensures OnCycle(h, a)
  {
    ReachWithin(g, h, b, a);
    assert Edge(h, a, b);
  }

  /** An edge closes a cycle exactly when its end already reached its start. */
  lemma AddedAcyclic(g: Graph, h: Graph, a: nat, b: nat)
    requires Added(g, h, a, b) && a < |g|
    ensures Acyclic(h) <==> Acyclic(g) && !Reach(g, b, a)
  {
    if Reach(g, b, a) {
      AddedCloses(g, h, a, b);
    }
    if Acyclic(h) {
      AcyclicWithin(g, h);
    }
    if Acyclic(g) && !Reach(g, b, a) {
      forall v | 0 <= v < |h| ensures !OnCycle(h, v) {
        if OnCycle(h, v) {
          var c: nat :| Edge(h, v, c) && Reach(h, c, v);
          var p :| Walk(h, p, c, v);
          WalkAdded(g, h, a, b, p, c, v);
          CycleWasThere(g, a, b, v, c);
        }
      }
    }
  }

  lemma CycleWasThere(g: Graph, a: nat, b: nat, v: nat, c: nat)
    requires Edge(g, v, c) || (v == a && c == b)
    requires Reach(g, c, v) || (Reach(g, c, a) && Reach(g, b, v))
    ensures OnCycle(g, v) || Reach(g, b, a)
  {
    if Edge(g, v, c) && !Reach(g, c, v) {
      ReachEdge(g, b, v, c);
      ReachTransitive(g, b, c, a);
    }
  }

  // ---- Turning all edges round ----

  ghost predicate Mirror(g: Graph, h: Graph) {
    |g| == |h| && forall x, y :: Edge(g, x, y) <==> Edge(h, y, x)
  }

  lemma {:induction false} WalkMirror(g: Graph, h: Graph, p: seq<nat>, x: nat, y: nat)
    requires Mirror(g, h) && Walk(g, p, x, y)
    ensures Reach(h, y, x)
  {
    ReachSelf(h, y);
    if |p| > 1 {
      WalkTail(g, p, x, y);
      WalkMirror(g, h, p[1..], p[1], y);
      ReachEdge(h, y, p[1], x);
    }
  }

  /** Ancestors along one kind of list are descendants along the other. */
  lemma ReachMirror(g: Graph, h: Graph, x: nat, y: nat)
    requires Mirror(g, h)
    ensures Reach(g, x, y) <==> Reach(h, y, x)
  {
    if Reach(g, x, y) {
      var p :| Walk(g, p, x, y);
      WalkMirror(g, h, p, x, y);
    }
    if Reach(h, y, x) {
      var p :| Walk(h, p, y, x);
      WalkMirror(h, g, p, y, x);
    }
  }

  lemma CycleMirror(g: Graph, h: Graph, v: nat)
    requires Mirror(g, h) && OnCycle(g, v)
    ensures OnCycle(h, v)
  {
    var c: nat :| Edge(g, v, c) && Reach(g, c, v);
    ReachMirror(g, h, c, v);
    var p :| Walk(h, p, v, c);
    if |p| > 1 {
      WalkTail(h, p, v, c);
      ReachEdge(h, p[1], c, v);
    } else {
      ReachSelf(h, v);
      assert Edge(h, c, v);
    }
  }

  lemma AcyclicMirror(g: Graph, h: Graph)
    requires Mirror(g, h) && Acyclic(g)
    ensures Acyclic(h)
  {
    forall v | 0 <= v < |h| ensures !OnCycle(h, v) {
      if OnCycle(h, v) {
        CycleMirror(h, g, v);
      }
    }
  }

  // ---- Rank and weight in a graph without cycles ----

  /** What `v` reaches, itself included. */
  ghost function Below(g: Graph, v: nat): set<nat> {
    set u: nat | u < |g| && Reach(g, v, u)
  }

  ghost function Rank(g: Graph, v: nat): nat {
    |Below(g, v)|
  }

  lemma SmallerSet(a: set<nat>, b: set<nat>, x: nat)
    requires a <= b && x in b && x !in a
    ensures |a| < |b|
  {
    CountSubset(a, b - {x});
  }

  lemma {:induction false} CountSubset(a: set<nat>, b: set<nat>)
    requires a <= b
    ensures |a| <= |b|
  {
    if a != {} {
      var x :| x in a;
      CountSubset(a - {x}, b - {x});
    }
  }

  lemma RankDrops(g: Graph, v: nat, c: nat)
    requires Acyclic(g) && Edge(g, v, c)
    ensures Rank(g, c) < Rank(g, v)
  {
    forall u | u in Below(g, c) ensures u in Below(g, v) {
      EdgeReach(g, v, c, u);
    }
    ReachSelf(g, v);
    assert !OnCycle(g, v);
    SmallerSet(Below(g, c), Below(g, v), v);
  }

  /** The number of walks that start at `v`: what a search that remembers nothing does from there. */
  ghost function Weight(g: Graph, v: nat): nat
    requires Wf(g) && Acyclic(g) && v < |g|
    decreases Rank(g, v), |g[v]| + 1
  {
    1 + WeightOfFirst(g, v, |g[v]|)
  }

  ghost function WeightOfFirst(g: Graph, v: nat, k: nat): nat
    requires Wf(g) && Acyclic(g) && v < |g| && k <= |g[v]|
    decreases Rank(g, v), k
  {
    if k == 0 then 0 else
    assert Edge(g, v, g[v][k - 1]);
    RankDrops(g, v, g[v][k - 1]);
    WeightOfFirst(g, v, k - 1) + Weight(g, g[v][k - 1])
  }

  ghost predicate InRange(g: Graph, s: seq<nat>) {
    forall i :: 0 <= i < |s| ==> s[i] < |g|
  }

  ghost function Total(g: Graph, s: seq<nat>): nat
    requires Wf(g) && Acyclic(g) && InRange(g, s)
  {
    if s == [] then 0 else Weight(g, s[0]) + Total(g, s[1..])
  }

  lemma {:induction false} TotalAppend(g: Graph, s: seq<nat>, v: nat)
    requires Wf(g) && Acyclic(g) && InRange(g, s) && v < |g|
    ensures Total(g, s + [v]) == Total(g, s) + Weight(g, v)
  {
    if s == [] {
      assert (s + [v])[1..] == [];
    } else {
      TotalAppend(g, s[1..], v);
      assert (s + [v])[1..] == s[1..] + [v];
    }
  }

  /** In a graph without cycles every node reaches one that has no edge out. */
  lemma {:induction false} ReachesLeaf(g: Graph, v: nat) returns (leaf: nat)
    requires Wf(g) && Acyclic(g) && v < |g|
    ensures leaf < |g| && g[leaf] == [] && Reach(g, v, leaf)
    decreases Rank(g, v)
  {
    if g[v] == [] {
      ReachSelf(g, v);
      leaf := v;
    } else {
      var c := g[v][0];
      assert Edge(g, v, c);
      RankDrops(g, v, c);
      leaf := ReachesLeaf(g, c);
      EdgeReach(g, v, c, leaf);
    }
  }
}
