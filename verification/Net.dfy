/** The Bayesian net: parent and child lists that mirror each other, and the searches over them. */
module Net {
  import opened NetGraph

  datatype Mark = Init | Test | Done

  // ---- Sorted id lists ----

  function InsertId(s: seq<nat>, x: nat): seq<nat> {
    if s == [] || s[0] >= x then [x] + s else [s[0]] + InsertId(s[1..], x)
  }

  /** Takes the first entry that is not below `x` away if it is `x`. */
  function RemoveId(s: seq<nat>, x: nat): seq<nat> {
    if s == [] || s[0] > x then s
    else if s[0] == x then s[1..]
    else [s[0]] + RemoveId(s[1..], x)
  }

  ghost predicate Ascending(s: seq<nat>) {
    |s| > 1 ==> s[0] <= s[1] && Ascending(s[1..])
  }

  ghost function Occurs(s: seq<nat>, x: nat): nat {
    if s == [] then 0 else (if s[0] == x then 1 else 0) + Occurs(s[1..], x)
  }

  lemma {:induction false} OccursIn(s: seq<nat>, x: nat)
    ensures Occurs(s, x) > 0 <==> x in s
  {
    if s != [] {
      OccursIn(s[1..], x);
    }
  }

  lemma {:induction false} OccursAbove(s: seq<nat>, x: nat)
    requires Ascending(s) && (s != [] ==> s[0] > x)
    ensures Occurs(s, x) == 0
  {
    if s != [] {
      OccursAbove(s[1..], x);
    }
  }

  lemma {:induction false} InsertIdIs(s: seq<nat>, x: nat, y: nat)
    requires Ascending(s)
    ensures Ascending(InsertId(s, x))
    ensures Occurs(InsertId(s, x), y) == Occurs(s, y) + if x == y then 1 else 0
    ensures y in InsertId(s, x) <==> y in s || y == x
  {
    if !(s == [] || s[0] >= x) {
      InsertIdIs(s[1..], x, y);
    }
    OccursIn(s, y);
    OccursIn(InsertId(s, x), y);
  }

  lemma {:induction false} RemoveIdIs(s: seq<nat>, x: nat, y: nat)
    requires Ascending(s)
    ensures Ascending(RemoveId(s, x))
    ensures Occurs(RemoveId(s, x), y) == Occurs(s, y) - if x == y && x in s then 1 else 0
    ensures y in RemoveId(s, x) ==> y in s
  {
    OccursIn(s, x);
    if s != [] {
      if s[0] > x {
        OccursAbove(s, x);
      } else if s[0] < x {
        RemoveIdIs(s[1..], x, y);
      }
    }
    OccursIn(s, y);
    OccursIn(RemoveId(s, x), y);
  }

  /** An edge stands as often in the child list of its start as in the parent list of its end. */
  ghost predicate Mirrored(children: Graph, parents: Graph) {
    && |children| == |parents|
    && forall a, b :: 0 <= a < |children| && 0 <= b < |parents| ==> Occurs(children[a], b) == Occurs(parents[b], a)
  }

  ghost predicate Lists(g: Graph) {
    forall v :: 0 <= v < |g| ==> Ascending(g[v])
  }

  lemma MirroredIsMirror(children: Graph, parents: Graph)
    requires Mirrored(children, parents) && Wf(children) && Wf(parents)
    ensures Mirror(children, parents)
  {
    forall x: nat, y: nat ensures Edge(children, x, y) <==> Edge(parents, y, x) {
      if x < |children| && y < |parents| {
        OccursIn(children[x], y);
        OccursIn(parents[y], x);
      }
    }
  }

  ghost function Nodes(n: nat): (r: set<nat>)
    ensures forall v: nat :: v in r <==> v < n
  {
    if n == 0 then {} else Nodes(n - 1) + {n - 1}
  }

  /** The entries of `s` that are not visited, in order. */
  function Unvisited(s: seq<nat>, visited: set<nat>): seq<nat> {
    if s == [] then [] else
    var n := |s| - 1;
    Unvisited(s[..n], visited) + if s[n] in visited then [] else [s[n]]
  }

  lemma {:induction false} UnvisitedIs(s: seq<nat>, visited: set<nat>)
    ensures forall x :: x in Unvisited(s, visited) <==> x in s && x !in visited
  {
    if s != [] {
      UnvisitedIs(s[..|s| - 1], visited);
    }
  }

  /** The position of the first entry that is not visited. */
  function FirstUnvisited(queue: seq<nat>, visited: set<nat>): (k: nat)
    ensures k <= |queue|
    ensures k < |queue| ==> queue[k] !in visited
    ensures forall i :: 0 <= i < k ==> queue[i] in visited
  {
    if queue == [] || queue[0] !in visited then 0 else 1 + FirstUnvisited(queue[1..], visited)
  }

  /** `h` holds what `g` holds and one more copy of the edge from `a` to `b`. */
  ghost predicate OneMore(g: Graph, h: Graph, a: nat, b: nat) {
    && |h| == |g|
    && forall x, y :: 0 <= x < |g| && 0 <= y ==> Occurs(h[x], y) == Occurs(g[x], y) + if x == a && y == b then 1 else 0
  }

  lemma Inserted(g: Graph, a: nat, b: nat)
    requires Wf(g) && Lists(g) && a < |g| && b < |g|
    ensures Wf(g[a := InsertId(g[a], b)]) && Lists(g[a := InsertId(g[a], b)])
    ensures OneMore(g, g[a := InsertId(g[a], b)], a, b)
  {
    InsertIdIs(g[a], b, b);
    forall y: nat
      ensures Occurs(InsertId(g[a], b), y) == Occurs(g[a], y) + if b == y then 1 else 0
      ensures y in InsertId(g[a], b) <==> y in g[a] || y == b
    {
      InsertIdIs(g[a], b, y);
    }
  }

  lemma Removed(g: Graph, a: nat, b: nat)
    requires Wf(g) && Lists(g) && a < |g| && b in g[a]
    ensures Wf(g[a := RemoveId(g[a], b)]) && Lists(g[a := RemoveId(g[a], b)])
    ensures OneMore(g[a := RemoveId(g[a], b)], g, a, b)
  {
    RemoveIdIs(g[a], b, b);
    forall y: nat
      ensures Occurs(g[a], y) == Occurs(RemoveId(g[a], b), y) + if b == y then 1 else 0
      ensures y in RemoveId(g[a], b) ==> y in g[a]
    {
      RemoveIdIs(g[a], b, y);
    }
  }

  lemma OneMoreIsAdded(g: Graph, h: Graph, a: nat, b: nat)
    requires OneMore(g, h, a, b) && a < |g|
    ensures Added(g, h, a, b)
  {
    forall x: nat, y: nat ensures Edge(h, x, y) <==> Edge(g, x, y) || (x == a && y == b) {
      if x < |g| {
        OccursIn(g[x], y);
        OccursIn(h[x], y);
      }
    }
  }

  class Net {
    const numNode: nat
    var parents: Graph
    var children: Graph
    var marks: seq<Mark>

    ghost predicate Valid()
      reads this
    {
      && |parents| == |children| == |marks| == numNode
      && Wf(parents) && Wf(children) && Lists(parents) && Lists(children)
      && Mirrored(children, parents)
    }

    constructor (numNode: nat)
      ensures Valid() && this.numNode == numNode && Acyclic(children)
      ensures forall a, b :: !Edge(children, a, b)
    {
      this.numNode := numNode;
      parents := seq(numNode, _ => []);
      children := seq(numNode, _ => []);
      marks := seq(numNode, _ => Init);
    }

    /** Adds the edge to both lists. */
    method InsertEdge(fromId: nat, toId: nat)
      requires Valid() && fromId < numNode && toId < numNode
      modifies this`parents, this`children
      ensures Valid()
      ensures OneMore(old(children), children, fromId, toId) && OneMore(old(parents), parents, toId, fromId)
    {
      Inserted(parents, toId, fromId);
      Inserted(children, fromId, toId);
      parents := parents[toId := InsertId(parents[toId], fromId)];
      children := children[fromId := InsertId(children[fromId], toId)];
    }

    /** Takes one copy of the edge out of both lists. */
    method RemoveEdge(fromId: nat, toId: nat)
      requires Valid() && fromId < numNode && toId < numNode && Edge(children, fromId, toId)
      modifies this`parents, this`children
      ensures Valid()
      ensures OneMore(children, old(children), fromId, toId) && OneMore(parents, old(parents), toId, fromId)
    {
      MirroredIsMirror(children, parents);
      assert Edge(parents, toId, fromId);
      Removed(parents, toId, fromId);
      Removed(children, fromId, toId);
      parents := parents[toId := RemoveId(parents[toId], fromId)];
      children := children[fromId := RemoveId(children[fromId], toId)];
    }

    /** Turns an edge round. */
    method ReverseEdge(fromId: nat, toId: nat)
      requires Valid() && fromId < numNode && toId < numNode && Edge(children, fromId, toId)
      modifies this`parents, this`children
      ensures Valid()
      ensures exists without ::
                && OneMore(without, old(children), fromId, toId)
                && OneMore(without, children, toId, fromId)
    {
      RemoveEdge(fromId, toId);
      ghost var without := children;
      InsertEdge(toId, fromId);
      assert OneMore(without, children, toId, fromId);
    }

    method HasEdge(fromId: nat, toId: nat) returns (found: bool)
      requires Valid() && fromId < numNode && toId < numNode
      ensures found <==> Edge(children, fromId, toId)
    {
      MirroredIsMirror(children, parents);
      for i := 0 to |parents[toId]|
        invariant fromId !in parents[toId][..i]
      {
        if parents[toId][i] == fromId {
          assert Edge(parents, toId, fromId);
          return true;
        }
      }
      assert parents[toId][..|parents[toId]|] == parents[toId];
      return false;
    }

    /** Breadth first, with a visited node expanded again each time the queue holds it: exact all the same. */
    method IsPath(fromId: nat, toId: nat) returns (found: bool)
      requires Valid() && fromId < numNode && toId < numNode
      ensures found <==> Reach(children, fromId, toId)
    {
      var visited: set<nat> := {};
      var queue: seq<nat> := [fromId];
      ReachSelf(children, fromId);
      while queue != []
        invariant Searching(children, fromId, visited, queue) && toId !in visited
        decreases |Nodes(numNode) - visited|, FirstUnvisited(queue, visited)
      {
        var id := queue[0];
        if id == toId {
          return true;
        }
        var next := PushUnvisited(children[id], visited + {id}, queue[1..]);
        Expanded(children, queue, visited, next, fromId);
        QueueAdvances(children, Nodes(numNode), queue, visited, next);
        visited := visited + {id};
        queue := next;
      }
      if Reach(children, fromId, toId) {
        ReachStays(children, visited, fromId, toId);
      }
      return false;
    }

    /** Depth first from `id`: a node that is met while it is still on the way closes a cycle. */
    method IsCycleFrom(id: nat) returns (found: bool)
      requires Valid() && id < numNode && DoneOk(children, marks)
      requires forall t: nat :: t < numNode && marks[t].Test? ==> Beyond(children, t, id)
      modifies this`marks
      ensures Valid()
      ensures found ==> !Acyclic(children)
      ensures !found ==> marks[id].Done? && Follows(old(marks), marks) && DoneOk(children, marks)
      decreases |Inits(marks)|
    {
      match marks[id]
      case Test =>
        assert OnCycle(children, id);
        return true;
      case Done =>
        return false;
      case Init =>
        ghost var first := marks;
        marks := marks[id := Test];
        for i := 0 to |children[id]|
          invariant Valid() && DoneOk(children, marks) && Follows(first[id := Test], marks)
          invariant forall j :: 0 <= j < i ==> children[id][j] < numNode && marks[children[id][j]].Done?
        {
          var childId := children[id][i];
          assert Edge(children, id, childId);
          forall t: nat | t < numNode && marks[t].Test? ensures Beyond(children, t, childId) {
            if t == id {
              ReachSelf(children, childId);
            } else {
              BeyondEdge(children, t, id, childId);
            }
          }
          FewerInits(first, marks, id);
          var cycle := IsCycleFrom(childId);
          if cycle {
            return true;
          }
        }
        FinishedOk(children, marks, id);
        marks := marks[id := Done];
        return false;
    }

    /** Decides whether the net has a cycle. */
    method IsCycle() returns (found: bool)
      requires Valid()
      modifies this`marks
      ensures Valid()
      ensures found <==> !Acyclic(children)
    {
      marks := seq(numNode, _ => Init);
      for n := 0 to numNode
        invariant Valid() && DoneOk(children, marks)
        invariant forall v :: 0 <= v < numNode ==> !marks[v].Test?
        invariant forall v :: 0 <= v < n ==> marks[v].Done?
      {
        match marks[n]
        case Init =>
          var cycle := IsCycleFrom(n);
          if cycle {
            return true;
          }
        case Done =>
        case Test =>
          assert false;
      }
      return false;
    }

    /** The proper ancestors of a node, unless it is its own ancestor. */
    method FindAncestors(id: nat) returns (ok: bool, ancestors: set<nat>)
      requires Valid() && id < numNode
      ensures ok <==> !OnCycle(children, id)
      ensures ok ==> forall v: nat :: v in ancestors <==> v < numNode && Beyond(children, v, id)
    {
      ok, ancestors := FindBeyond(parents, id);
      MirroredIsMirror(children, parents);
      forall v: nat ensures Beyond(parents, id, v) <==> Beyond(children, v, id) {
        BeyondMirror(children, parents, v, id);
      }
      if ok {
        forall v: nat | v in ancestors ensures v < numNode {
          BeyondInRange(parents, id, v);
        }
      }
    }

    /** The proper descendants of a node, unless it is its own descendant. */
    method FindDescendants(id: nat) returns (ok: bool, descendants: set<nat>)
      requires Valid() && id < numNode
      ensures ok <==> !OnCycle(children, id)
      ensures ok ==> forall v: nat :: v in descendants <==> Beyond(children, id, v)
    {
      ok, descendants := FindBeyond(children, id);
    }

    /** The edges drawn are added, each unless it would close a cycle.  The numbers drawn are given. */
    method GenerateRandomEdges(maxNumParent: nat, percentParent: nat, random: nat -> nat)
      requires Valid() && Acyclic(children)
      modifies this
      ensures Valid() && Acyclic(children) && Within(old(children), children)
      ensures Settled(old(children), children, Draws(random, percentParent, numNode, maxNumParent, numNode).asked)
      ensures Simple(old(children)) ==> Simple(children)
      ensures percentParent == 0 ==> parents == old(parents) && children == old(children)
    {
      var k := 0;
      for n := 0 to numNode
        invariant Drawn(old(children), Draws(random, percentParent, numNode, maxNumParent, n), k)
        invariant percentParent == 0 ==> parents == old(parents) && children == old(children)
      {
        ghost var before := Draws(random, percentParent, numNode, maxNumParent, n);
        for p := 0 to maxNumParent
          invariant Drawn(old(children), DrawsFor(random, percentParent, numNode, n, p, before), k)
          invariant percentParent == 0 ==> parents == old(parents) && children == old(children)
        {
          k := DrawEdge(n, percentParent, random, k, old(children),
              DrawsFor(random, percentParent, numNode, n, p, before));
        }
      }
      var cycle := IsCycle();
      assert !cycle;
    }

    /** The net has the edges of `first` and those drawn, by way of `k` numbers. */
    ghost predicate Drawn(first: Graph, d: Drawing, k: nat)
      reads this
    {
      && Valid() && Acyclic(children) && Within(first, children) && Settled(first, children, d.asked) && k == d.used
      && (Simple(first) ==> Simple(children))
    }

    /** One attempt to give node `n` a parent. */
    method DrawEdge(n: nat, percentParent: nat, random: nat -> nat, k: nat, ghost first: Graph,
                    ghost d: Drawing) returns (k': nat)
      requires n < numNode && Drawn(first, d, k)
      modifies this`parents, this`children
      ensures Drawn(first, DrawOnce(random, percentParent, numNode, n, d), k')
      ensures percentParent == 0 ==> parents == old(parents) && children == old(children)
    {
      var value := random(k) % 100;
      k' := k + 1;
      if value < percentParent {
        var parent := random(k') % numNode;
        k' := k' + 1;
        var refused := parent == n;
        if !refused {
          refused := HasEdge(parent, n);
        }
        if !refused {
          refused := IsPath(n, parent);
        }
        if refused {
          ReachSelf(children, n);
        } else {
          ghost var before := children;
          OccursIn(children[parent], n);
          InsertEdge(parent, n);
          OneMoreIsAdded(before, children, parent, n);
          AddedAcyclic(before, children, parent, n);
          SettledAdded(first, before, children, d.asked, Arc(parent, n));
        }
        assert Settled(first, children, d.asked + [Arc(parent, n)]);
      }
    }
  }

  datatype Arc = Arc(parent: nat, child: nat)

  /** The edges asked for so far, and how many numbers were drawn for them. */
  datatype Drawing = Drawing(asked: seq<Arc>, used: nat)

  /** What the next numbers ask for as a parent of node `n`. */
  function DrawOnce(random: nat -> nat, percentParent: nat, numNode: nat, n: nat, d: Drawing): Drawing
    requires numNode > 0
  {
    if random(d.used) % 100 < percentParent then Drawing(d.asked + [Arc(random(d.used + 1) % numNode, n)], d.used + 2)
    else d.(used := d.used + 1)
  }

  /** What they ask for in `count` attempts. */
  function DrawsFor(random: nat -> nat, percentParent: nat, numNode: nat, n: nat, count: nat, before: Drawing): Drawing
    requires numNode > 0
  {
    if count == 0 then before
    else DrawOnce(random, percentParent, numNode, n, DrawsFor(random, percentParent, numNode, n, count - 1, before))
  }

  /** What they ask for as parents of the first `n` nodes. */
  function Draws(random: nat -> nat, percentParent: nat, numNode: nat, maxNumParent: nat, n: nat): Drawing
    requires n <= numNode
  {
    if n == 0 then Drawing([], 0)
    else DrawsFor(random, percentParent, numNode, n - 1, maxNumParent,
        Draws(random, percentParent, numNode, maxNumParent, n - 1))
  }

  /** What has been drawn after so many attempts.  Each draws one number, and a second one if it asks for an edge. */
  ghost predicate DrawnTo(random: nat -> nat, percentParent: nat, numNode: nat, maxNumParent: nat, tried: nat,
                          d: Drawing)
    requires numNode > 0
  {
    && d.used == tried + |d.asked|
    && (percentParent == 0 ==> d.asked == [])
    && (percentParent >= 100 ==>
          && |d.asked| == tried
          && forall i :: 0 <= i < tried ==> AskedAs(d.asked[i], random, numNode, maxNumParent, i))
    && forall arc :: arc in d.asked ==> maxNumParent > 0 && arc.parent < numNode && arc.child * maxNumParent < tried
  }

  /** Attempt `i`, of those that all ask, draws its parent with number `2 * i + 1`; each node has `maxNumParent`
      attempts in turn. */
  predicate AskedAs(arc: Arc, random: nat -> nat, numNode: nat, maxNumParent: nat, i: nat)
    requires numNode > 0
  {
    arc.parent == random(2 * i + 1) % numNode && arc.child * maxNumParent <= i < (arc.child + 1) * maxNumParent
  }

  lemma {:induction false} DrawsForTo(random: nat -> nat, percentParent: nat, numNode: nat, maxNumParent: nat, n: nat,
                                      count: nat, before: Drawing)
    requires numNode > 0 && count <= maxNumParent
    requires DrawnTo(random, percentParent, numNode, maxNumParent, n * maxNumParent, before)
    ensures DrawnTo(random, percentParent, numNode, maxNumParent, n * maxNumParent + count,
                    DrawsFor(random, percentParent, numNode, n, count, before))
  {
    if count > 0 {
      DrawsForTo(random, percentParent, numNode, maxNumParent, n, count - 1, before);
      assert n * maxNumParent + maxNumParent == (n + 1) * maxNumParent;
    }
  }

  /** What the numbers ask for, said without drawing them one by one: how many are used, nothing at 0 percent, and
      at 100 every attempt, each with its own number and for its own node. */
  lemma {:induction false} DrawsTo(random: nat -> nat, percentParent: nat, numNode: nat, maxNumParent: nat, n: nat)
    requires n <= numNode && numNode > 0
    ensures DrawnTo(random, percentParent, numNode, maxNumParent, n * maxNumParent,
                    Draws(random, percentParent, numNode, maxNumParent, n))
  {
    if n > 0 {
      DrawsTo(random, percentParent, numNode, maxNumParent, n - 1);
      var before := Draws(random, percentParent, numNode, maxNumParent, n - 1);
      DrawsForTo(random, percentParent, numNode, maxNumParent, n - 1, maxNumParent, before);
      assert (n - 1) * maxNumParent + maxNumParent == n * maxNumParent;
    }
  }

  /** The edges are those there were and those asked for, but for the ones that would close a cycle. */
  ghost predicate Settled(g: Graph, h: Graph, asked: seq<Arc>) {
    && (forall x, y :: Edge(h, x, y) ==> Edge(g, x, y) || Arc(x, y) in asked)
    && forall arc :: arc in asked ==> Edge(h, arc.parent, arc.child) || Reach(h, arc.child, arc.parent)
  }

  lemma SettledAdded(first: Graph, g: Graph, h: Graph, asked: seq<Arc>, arc: Arc)
    requires Settled(first, g, asked) && Added(g, h, arc.parent, arc.child)
    ensures Settled(first, h, asked + [arc])
  {
    forall a | a in asked ensures Edge(h, a.parent, a.child) || Reach(h, a.child, a.parent) {
      if !Edge(g, a.parent, a.child) {
        ReachWithin(g, h, a.child, a.parent);
      }
    }
  }

  ghost predicate Simple(g: Graph) {
    forall v, c :: 0 <= v < |g| && 0 <= c ==> Occurs(g[v], c) <= 1
  }

  lemma BeyondEdge(g: Graph, a: nat, b: nat, c: nat)
    requires Beyond(g, a, b) && Edge(g, b, c)
    ensures Beyond(g, a, c)
  {
    var d: nat :| Edge(g, a, d) && Reach(g, d, b);
    ReachEdge(g, d, b, c);
  }

  lemma BeyondIsReach(g: Graph, a: nat, b: nat)
    ensures Beyond(g, a, b) ==> Reach(g, a, b)
    ensures Reach(g, a, b) && a != b ==> Beyond(g, a, b)
  {
    if Beyond(g, a, b) {
      var c: nat :| Edge(g, a, c) && Reach(g, c, b);
      EdgeReach(g, a, c, b);
    }
    if Reach(g, a, b) && a != b {
      var p :| Walk(g, p, a, b);
      WalkTail(g, p, a, b);
    }
  }

  lemma BeyondMirror(g: Graph, h: Graph, a: nat, b: nat)
    requires Mirror(g, h)
    ensures Beyond(g, a, b) <==> Beyond(h, b, a)
  {
    BeyondIsReach(g, a, b);
    BeyondIsReach(h, b, a);
    ReachMirror(g, h, a, b);
    if a == b {
      if OnCycle(g, a) {
        CycleMirror(g, h, a);
      }
      if OnCycle(h, a) {
        CycleMirror(h, g, a);
      }
    }
  }

  lemma BeyondInRange(g: Graph, a: nat, b: nat)
    requires Wf(g) && Beyond(g, a, b)
    ensures b < |g|
  {
    var c: nat :| Edge(g, a, c) && Reach(g, c, b);
    ReachStays(g, Nodes(|g|), c, b);
  }

  ghost function Inits(marks: seq<Mark>): set<nat> {
    set v: nat | v < |marks| && marks[v].Init?
  }

  /** `Done` nodes lead only to `Done` nodes, and none is on a cycle. */
  ghost predicate DoneOk(g: Graph, marks: seq<Mark>) {
    && |marks| == |g|
    && (forall a: nat, b: nat :: Edge(g, a, b) && marks[a].Done? ==> b < |g| && marks[b].Done?)
    && (forall a :: 0 <= a < |g| && marks[a].Done? ==> !OnCycle(g, a))
  }

  /** The nodes on the way are as they were, and the others only move on to `Done`. */
  ghost predicate Follows(first: seq<Mark>, marks: seq<Mark>) {
    && |marks| == |first|
    && (forall v :: 0 <= v < |marks| ==> (marks[v].Test? <==> first[v].Test?))
    && (forall v :: 0 <= v < |marks| ==> first[v].Done? ==> marks[v].Done?)
  }

  lemma FewerInits(first: seq<Mark>, marks: seq<Mark>, id: nat)
    requires id < |first| && first[id].Init? && Follows(first[id := Test], marks)
    ensures |Inits(marks)| < |Inits(first)|
  {
    SmallerSet(Inits(marks), Inits(first), id);
  }

  lemma FinishedOk(g: Graph, marks: seq<Mark>, id: nat)
    requires Wf(g) && DoneOk(g, marks) && id < |g| && marks[id].Test?
    requires forall j :: 0 <= j < |g[id]| ==> g[id][j] < |g| && marks[g[id][j]].Done?
    ensures DoneOk(g, marks[id := Done])
  {
    var done := set v: nat | v < |g| && marks[v].Done?;
    if OnCycle(g, id) {
      var c: nat :| Edge(g, id, c) && Reach(g, c, id);
      ReachStays(g, done, c, id);
    }
  }

  ghost predicate Finding(g: Graph, id: nat, found: set<nat>, queue: seq<nat>) {
    && (forall v :: v in found ==> v < |g| && Beyond(g, id, v))
    && (forall v :: v in queue ==> v in found)
    && (forall c :: Edge(g, id, c) ==> c in found)
    && (forall a, b :: a in found && a !in queue && Edge(g, a, b) ==> b in found)
    && (id in found ==> id in queue)
  }

  /** Adds the ids that are new to the set, and queues them. */
  method PushNew(ids: seq<nat>, found: set<nat>, queue: seq<nat>) returns (more: set<nat>, longer: seq<nat>)
    ensures forall v :: v in more <==> v in found || v in ids
    ensures forall v :: v in longer <==> v in queue || (v in ids && v !in found)
    ensures more == found ==> longer == queue
  {
    more, longer := found, queue;
    for i := 0 to |ids|
      invariant forall v :: v in more <==> v in found || v in ids[..i]
      invariant forall v :: v in longer <==> v in queue || (v in ids[..i] && v !in found)
      invariant more == found ==> longer == queue
    {
      if ids[i] !in more {
        more := more + {ids[i]};
        longer := longer + [ids[i]];
      }
    }
  }

  lemma Found(g: Graph, id: nat, found: set<nat>, queue: seq<nat>, more: set<nat>, longer: seq<nat>)
    requires Wf(g) && Finding(g, id, found, queue) && queue != [] && queue[0] != id && queue[0] < |g|
    requires forall v :: v in more <==> v in found || v in g[queue[0]]
    requires forall v :: v in longer <==> v in queue[1..] || (v in g[queue[0]] && v !in found)
    ensures Finding(g, id, more, longer)
  {
    assert queue == [queue[0]] + queue[1..];
    forall v | v in more ensures v < |g| && Beyond(g, id, v) {
      if v !in found {
        assert Edge(g, queue[0], v);
        BeyondEdge(g, id, queue[0], v);
      }
    }
  }

  lemma Started(g: Graph, id: nat, found: set<nat>)
    requires Wf(g) && id < |g| && forall v :: v in found <==> v in g[id]
    ensures Finding(g, id, found, g[id])
  {
    forall v | v in found ensures v < |g| && Beyond(g, id, v) {
      assert Edge(g, id, v);
      ReachSelf(g, v);
    }
  }

  lemma FoundAll(g: Graph, id: nat, found: set<nat>)
    requires Finding(g, id, found, [])
    ensures forall v: nat :: v in found <==> Beyond(g, id, v)
  {
    forall v: nat | Beyond(g, id, v) ensures v in found {
      var c: nat :| Edge(g, id, c) && Reach(g, c, v);
      ReachStays(g, found, c, v);
    }
  }

  /** All that lies beyond a node along one kind of list, unless the node itself does. */
  method FindBeyond(g: Graph, id: nat) returns (ok: bool, found: set<nat>)
    requires Wf(g) && id < |g|
    ensures ok <==> !OnCycle(g, id)
    ensures ok ==> forall v: nat :: v in found <==> Beyond(g, id, v)
  {
    found := {};
    var queue: seq<nat> := [];
    for i := 0 to |g[id]|
      invariant queue == g[id][..i] && forall v :: v in found <==> v in g[id][..i]
    {
      found := found + {g[id][i]};
      queue := queue + [g[id][i]];
    }
    assert queue == g[id];
    Started(g, id, found);
    while queue != []
      invariant Finding(g, id, found, queue)
      decreases |Nodes(|g|) - found|, |queue|
    {
      var next := queue[0];
      assert next in queue && next in found && next < |g|;
      if next == id {
        return false, found;
      }
      var more, longer := PushNew(g[next], found, queue[1..]);
      Found(g, id, found, queue, more, longer);
      MoreFound(|g|, found, more);
      found, queue := more, longer;
    }
    FoundAll(g, id, found);
    ok := true;
  }

  lemma MoreFound(n: nat, found: set<nat>, more: set<nat>)
    requires found <= more && forall v :: v in more ==> v < n
    ensures more == found || |Nodes(n) - more| < |Nodes(n) - found|
  {
    if more != found {
      var x :| x in more && x !in found;
      SmallerSet(Nodes(n) - more, Nodes(n) - found, x);
    }
  }

  /** Pushes the entries of an id list that are not visited. */
  method PushUnvisited(ids: seq<nat>, visited: set<nat>, queue: seq<nat>) returns (longer: seq<nat>)
    ensures longer == queue + Unvisited(ids, visited)
  {
    longer := queue;
    for i := 0 to |ids|
      invariant longer == queue + Unvisited(ids[..i], visited)
    {
      assert ids[..i + 1][..i] == ids[..i];
      if ids[i] !in visited {
        longer := longer + [ids[i]];
      }
    }
    assert ids[..|ids|] == ids;
  }

  /** All that is visited or queued is reached from `fromId`, and what a visited node leads to is one or the other. */
  ghost predicate Searching(g: Graph, fromId: nat, visited: set<nat>, queue: seq<nat>) {
    && (forall v :: v in visited || v in queue ==> v < |g| && Reach(g, fromId, v))
    && (fromId in visited || fromId in queue)
    && (forall a, b :: a in visited && Edge(g, a, b) ==> b in visited || b in queue)
  }

  /** What popping and expanding the head of the queue keeps. */
  lemma Expanded(g: Graph, before: seq<nat>, seen: set<nat>, queue: seq<nat>, fromId: nat)
    requires Searching(g, fromId, seen, before) && Wf(g) && before != [] && before[0] < |g|
    requires queue == before[1..] + Unvisited(g[before[0]], seen + {before[0]})
    ensures Searching(g, fromId, seen + {before[0]}, queue)
  {
    var id := before[0];
    UnvisitedIs(g[id], seen + {id});
    assert before == [id] + before[1..];
    forall v | v in queue ensures Reach(g, fromId, v) && v < |g| {
      if v in before[1..] {
        assert v in before;
      } else {
        assert Edge(g, id, v);
        ReachEdge(g, fromId, id, v);
      }
    }
  }

  lemma {:induction false} UnvisitedNone(s: seq<nat>, visited: set<nat>)
    requires forall x :: x in s ==> x in visited
    ensures Unvisited(s, visited) == []
  {
    if s != [] {
      UnvisitedNone(s[..|s| - 1], visited);
    }
  }

  /** Why the search ends: either a node is visited for the first time, or the first entry that is not
      yet visited moves forward. */
  lemma QueueAdvances(g: Graph, nodes: set<nat>, before: seq<nat>, seen: set<nat>, queue: seq<nat>)
    requires before != [] && before[0] < |g| && before[0] in nodes
    requires queue == before[1..] + Unvisited(g[before[0]], seen + {before[0]})
    requires forall a, b :: a in seen && Edge(g, a, b) ==> b in seen || b in before
    ensures before[0] !in seen ==> |nodes - (seen + {before[0]})| < |nodes - seen|
    ensures before[0] in seen ==>
        seen + {before[0]} == seen && FirstUnvisited(queue, seen) < FirstUnvisited(before, seen)
  {
    var id := before[0];
    if id !in seen {
      SmallerSet(nodes - (seen + {id}), nodes - seen, id);
    } else {
      assert seen + {id} == seen;
      var k := FirstUnvisited(before, seen);
      assert k > 0;
      if k < |before| {
        assert queue[k - 1] == before[k];
      } else {
        forall v | v in g[id] ensures v in seen {
          assert Edge(g, id, v);
        }
        UnvisitedNone(g[id], seen);
      }
    }
  }
}
