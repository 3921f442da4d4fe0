/** The lock-free sorted list: inserts of absent keys by compare and swap, and lookups, by any number of
    threads.  Nothing is removed. */
module LockFreeList {
  import opened Options

  type Key = int
  type Val = int
  type Tid = nat

  datatype Op = Insert(key: Key, val: Val) | Find(key: Key)

  /** `linked` is not stored: it says that the node has been swapped into the list. */
  datatype Node = Node(key: Key, val: Val, next: nat, linked: bool)

  const HEAD: nat := 0
  const TAIL: nat := 1

  /** `Lost` is an insert whose search came to no left node: what it does from there on is undefined. */
  datatype Pc = Idle | Search | SetNext | Swap | Lost

  /** `begun` counts the calls of the thread. */
  datatype Thread = Thread(pc: Pc, begun: nat, op: Op, iter: nat, right: nat, made: nat)

  /** Call `number` of a thread at the instant it takes effect, with the value a lookup gives. */
  datatype Effect = Effect(tid: Tid, number: nat, op: Op, result: Option<Val>)

  datatype State = State(nodes: seq<Node>, threads: map<Tid, Thread>, done: seq<Effect>)

  // ---- Steps ----

  /** The key stands before node `r`: the search goes no further. */
  predicate Stops(nodes: seq<Node>, r: nat, key: Key)
    requires r < |nodes|
  {
    r == TAIL || nodes[r].key >= key
  }

  function Put(s: State, t: Tid, th: Thread): State {
    s.(threads := s.threads[t := th])
  }

  /** An insert makes its node first.  Its search takes the head as left node if the key is above that of the
      head, and has no left node otherwise. */
  predicate StepBegin(s: State, s': State, t: Tid, th: Thread, op: Op) {
    && |s.nodes| > 0
    && var pc := if op.Find? || s.nodes[HEAD].key < op.key then Search else Lost;
       s' == if op.Find? then Put(s, t, Thread(pc, th.begun + 1, op, HEAD, TAIL, 0))
             else Put(s.(nodes := s.nodes + [Node(op.key, op.val, TAIL, false)]), t,
                      Thread(pc, th.begun + 1, op, HEAD, TAIL, |s.nodes|))
  }

  function TookEffect(s: State, t: Tid, th: Thread, result: Option<Val>): seq<Effect> {
    s.done + [Effect(t, if th.begun > 0 then th.begun - 1 else 0, th.op, result)]
  }

  /** Reads one `next` pointer, and goes on or stops. */
  predicate StepSearch(s: State, s': State, t: Tid, th: Thread) {
    && th.iter < |s.nodes| && s.nodes[th.iter].next < |s.nodes|
    && var r := s.nodes[th.iter].next;
       if !Stops(s.nodes, r, th.op.key) then s' == Put(s, t, th.(iter := r))
       else
         var there := r != TAIL && s.nodes[r].key == th.op.key;
         if th.op.Insert? && !there then s' == Put(s, t, th.(right := r, pc := SetNext))
         else
           var result := if there && th.op.Find? then Some(s.nodes[r].val) else None;
           s' == Put(s.(done := TookEffect(s, t, th, result)), t, th.(pc := Idle))
  }

  predicate StepSetNext(s: State, s': State, t: Tid, th: Thread) {
    && th.made < |s.nodes|
    && s' == Put(s.(nodes := s.nodes[th.made := s.nodes[th.made].(next := th.right)]), t, th.(pc := Swap))
  }

  predicate StepSwap(s: State, s': State, t: Tid, th: Thread) {
    && th.iter < |s.nodes| && th.made < |s.nodes|
    && s' == if s.nodes[th.iter].next == th.right
             then Put(s.(nodes := Linked(s.nodes, th.iter, th.made), done := TookEffect(s, t, th, None)),
                      t, th.(pc := Idle))
             else Put(s, t, th.(iter := HEAD, pc := Search))
  }

  /** The list with node `f` swapped in after `left`. */
  function Linked(nodes: seq<Node>, left: nat, f: nat): seq<Node>
    requires left < |nodes| && f < |nodes|
  {
    nodes[left := nodes[left].(next := f)][f := nodes[f].(linked := true)]
  }

  /** The compare and swap through a pointer that was never set may do anything to the nodes. */
  predicate StepLost(s: State, s': State) {
    s'.threads == s.threads && s'.done == s.done
  }

  predicate Step(s: State, s': State, t: Tid, op: Op)
    requires t in s.threads
  {
    var th := s.threads[t];
    match th.pc
    case Idle => StepBegin(s, s', t, th, op)
    case Search => StepSearch(s, s', t, th)
    case SetNext => StepSetNext(s, s', t, th)
    case Swap => StepSwap(s, s', t, th)
    case Lost => StepLost(s, s')
  }

  ghost predicate Next(s: State, s': State) {
    exists t, op :: t in s.threads && Step(s, s', t, op)
  }

  /** Head and tail, and threads that have done nothing. */
  ghost predicate Start(s: State) {
    && |s.nodes| == 2 && s.nodes[HEAD].next == TAIL && s.nodes[HEAD].linked && s.nodes[TAIL].linked && s.done == []
    && forall t :: t in s.threads ==> s.threads[t].pc == Idle && s.threads[t].begun == 0
  }

  ghost predicate Stepped(run: seq<State>, i: nat)
    requires i + 1 < |run|
  {
    Next(run[i], run[i + 1])
  }

  ghost predicate Run(run: seq<State>) {
    |run| > 0 && Start(run[0]) && forall i: nat :: i + 1 < |run| ==> Stepped(run, i)
  }

  /** Every search so far has come to a left node. */
  ghost predicate NoneLost(s: State) {
    forall t :: t in s.threads ==> s.threads[t].pc != Lost
  }

  // ---- The sequential meaning ----

  function MapGet(m: map<Key, Val>, k: Key): Option<Val> {
    if k in m then Some(m[k]) else None
  }

  /** An insert keeps the value of a key that is there. */
  function Apply(m: map<Key, Val>, op: Op): map<Key, Val> {
    if op.Insert? && op.key !in m then m[op.key := op.val] else m
  }

  function MapOf(done: seq<Effect>): map<Key, Val> {
    if done == [] then map[] else Apply(MapOf(done[..|done| - 1]), done[|done| - 1].op)
  }

  ghost predicate Legal(done: seq<Effect>) {
    forall i :: 0 <= i < |done| && done[i].op.Find? ==> done[i].result == MapGet(MapOf(done[..i]), done[i].op.key)
  }

  // ---- The invariant ----

  ghost predicate InList(nodes: seq<Node>, n: nat) {
    n < |nodes| && nodes[n].linked && n != HEAD && n != TAIL
  }

  /** A linked node leads to a linked node with a larger key, and no linked node lies between them. */
  ghost predicate LinkOk(nodes: seq<Node>, n: nat)
    requires n < |nodes|
  {
    var r := nodes[n].next;
    && r < |nodes| && r != HEAD && nodes[r].linked && (r != TAIL ==> nodes[n].key < nodes[r].key)
    && forall x: nat {:trigger InList(nodes, x)} ::
         InList(nodes, x) && nodes[n].key < nodes[x].key ==> r != TAIL && nodes[r].key <= nodes[x].key
  }

  ghost predicate ListOk(nodes: seq<Node>) {
    && |nodes| >= 2 && nodes[HEAD].linked && nodes[TAIL].linked
    && (forall n {:trigger LinkOk(nodes, n)} :: 0 <= n < |nodes| && n != TAIL && nodes[n].linked ==> LinkOk(nodes, n))
    && (forall x: nat {:trigger InList(nodes, x)} :: InList(nodes, x) ==> nodes[HEAD].key < nodes[x].key)
    && (forall x: nat, y: nat {:trigger InList(nodes, x), InList(nodes, y)} ::
          InList(nodes, x) && InList(nodes, y) && nodes[x].key == nodes[y].key ==> x == y)
  }

  /** The linked nodes are the map. */
  ghost predicate Holds(nodes: seq<Node>, m: map<Key, Val>) {
    && (forall x: nat {:trigger InList(nodes, x)} :: InList(nodes, x) ==> MapGet(m, nodes[x].key) == Some(nodes[x].val))
    && (forall k :: k in m ==> HasNode(nodes, k))
  }

  ghost predicate HasNode(nodes: seq<Node>, k: Key) {
    exists x: nat :: InList(nodes, x) && nodes[x].key == k
  }

  ghost predicate ThreadOk(nodes: seq<Node>, th: Thread) {
    th.pc != Idle ==>
      && th.pc != Lost && th.begun > 0
      && th.iter < |nodes| && th.iter != TAIL && nodes[th.iter].linked
      && (th.iter != HEAD || th.op.Insert? ==> nodes[th.iter].key < th.op.key)
      && (th.op.Insert? ==>
            && 1 < th.made < |nodes| && !nodes[th.made].linked
            && nodes[th.made].key == th.op.key && nodes[th.made].val == th.op.val)
      && (th.pc != Search ==>
            && th.op.Insert? && th.right < |nodes| && nodes[th.right].linked && th.right != HEAD
            && (th.right != TAIL ==> th.op.key < nodes[th.right].key))
      && (th.pc == Swap ==> nodes[th.made].next == th.right)
  }

  /** No two threads have made the same node. */
  ghost predicate Apart(s: State) {
    forall t, u :: t in s.threads && u in s.threads && t != u && Making(s.threads[t]) && Making(s.threads[u]) ==>
      s.threads[t].made != s.threads[u].made
  }

  predicate Making(th: Thread) {
    th.pc != Idle && th.op.Insert?
  }

  /** The calls of a thread that have taken effect. */
  function Effective(th: Thread): nat {
    if th.pc.Idle? || th.begun == 0 then th.begun else th.begun - 1
  }

  ghost predicate Took(done: seq<Effect>, t: Tid, number: nat) {
    exists i :: 0 <= i < |done| && IsCall(done[i], t, number)
  }

  predicate IsCall(e: Effect, t: Tid, number: nat) {
    e.tid == t && e.number == number
  }

  /** Every call that has returned has taken effect, each exactly once, and so has no other. */
  ghost predicate OnceEach(s: State) {
    && (forall i, j :: 0 <= i < j < |s.done| ==> !IsCall(s.done[i], s.done[j].tid, s.done[j].number))
    && (forall t, number :: t in s.threads && 0 <= number ==>
          (Took(s.done, t, number) <==> number < Effective(s.threads[t])))
  }

  ghost predicate Inv(s: State) {
    && ListOk(s.nodes) && Holds(s.nodes, MapOf(s.done)) && Legal(s.done) && Apart(s) && OnceEach(s)
    && forall t :: t in s.threads ==> ThreadOk(s.nodes, s.threads[t])
  }

  // ---- Preservation ----

  /** Nodes stay what they are; only the `next` of linked nodes, and nodes of `t`, change. */
  ghost predicate Frame(nodes: seq<Node>, nodes': seq<Node>, own: nat) {
    && |nodes| <= |nodes'|
    && forall n :: 0 <= n < |nodes| ==>
         && nodes'[n].key == nodes[n].key && nodes'[n].val == nodes[n].val
         && (nodes[n].linked ==> nodes'[n].linked)
         && (n != own && !nodes[n].linked ==> nodes'[n] == nodes[n])
  }

  lemma OthersOk(s: State, s': State, t: Tid, own: nat)
    requires Inv(s) && t in s.threads && s'.threads.Keys == s.threads.Keys && Frame(s.nodes, s'.nodes, own)
    requires forall u :: u in s.threads && u != t ==> s'.threads[u] == s.threads[u]
    requires forall u :: u in s.threads && u != t && Making(s.threads[u]) ==> s.threads[u].made != own
    ensures forall u :: u in s'.threads && u != t ==> ThreadOk(s'.nodes, s'.threads[u])
  {
    forall u | u in s'.threads && u != t ensures ThreadOk(s'.nodes, s'.threads[u]) {
      assert ThreadOk(s.nodes, s.threads[u]);
    }
  }

  lemma LegalMore(done: seq<Effect>, e: Effect)
    requires Legal(done) && (e.op.Find? ==> e.result == MapGet(MapOf(done), e.op.key))
    ensures Legal(done + [e]) && MapOf(done + [e]) == Apply(MapOf(done), e.op)
  {
    var more := done + [e];
    assert more[..|done|] == done;
    forall i | 0 <= i < |more| && more[i].op.Find?
      ensures more[i].result == MapGet(MapOf(more[..i]), more[i].op.key)
    {
      assert i < |done| ==> more[..i] == done[..i] && more[i] == done[i];
    }
  }

  lemma OnceMore(s: State, s': State, t: Tid, th': Thread, e: Effect)
    requires OnceEach(s) && t in s.threads && s'.threads == s.threads[t := th'] && s'.done == s.done + [e]
    requires IsCall(e, t, Effective(s.threads[t])) && Effective(th') == e.number + 1
    ensures OnceEach(s')
  {
    assert !Took(s.done, t, e.number);
    forall i, j | 0 <= i < j < |s'.done| ensures !IsCall(s'.done[i], s'.done[j].tid, s'.done[j].number) {
      assert s'.done[i] == s.done[i] && !IsCall(s.done[i], t, e.number);
    }
    forall u, number | u in s'.threads && 0 <= number
      ensures Took(s'.done, u, number) <==> number < Effective(s'.threads[u])
    {
      if Took(s.done, u, number) {
        var i :| 0 <= i < |s.done| && IsCall(s.done[i], u, number);
        assert s'.done[i] == s.done[i];
      }
      if u == t && number == e.number {
        assert s'.done[|s.done|] == e;
      }
      if Took(s'.done, u, number) {
        var i :| 0 <= i < |s'.done| && IsCall(s'.done[i], u, number);
        assert i < |s.done| ==> s.done[i] == s'.done[i];
      }
    }
  }

  /** Where the search stops the map is known: the node there has the key, or no node has. */
  lemma StopsWhere(nodes: seq<Node>, m: map<Key, Val>, n: nat, k: Key)
    requires ListOk(nodes) && Holds(nodes, m) && n < |nodes| && n != TAIL && nodes[n].linked
    requires (n == HEAD || nodes[n].key < k) && nodes[n].next < |nodes| && Stops(nodes, nodes[n].next, k)
    ensures var r := nodes[n].next;
            MapGet(m, k) == if r != TAIL && nodes[r].key == k then Some(nodes[r].val) else None
  {
    var r := nodes[n].next;
    assert LinkOk(nodes, n);
    if r != TAIL && nodes[r].key == k {
      assert InList(nodes, r);
    } else {
      forall x: nat | InList(nodes, x) ensures nodes[x].key != k {
        assert nodes[HEAD].key < nodes[x].key;
      }
      assert !HasNode(nodes, k);
    }
  }

  /** Nodes that are not in the list do not count. */
  lemma SameList(nodes: seq<Node>, nodes': seq<Node>, m: map<Key, Val>)
    requires ListOk(nodes) && Holds(nodes, m) && |nodes| <= |nodes'|
    requires forall n :: 0 <= n < |nodes'| && nodes'[n].linked ==> n < |nodes| && nodes[n].linked
    requires forall n :: 0 <= n < |nodes| && nodes[n].linked ==> nodes'[n] == nodes[n]
    ensures ListOk(nodes') && Holds(nodes', m)
  {
    assert forall x: nat :: InList(nodes', x) <==> InList(nodes, x);
    forall n | 0 <= n < |nodes'| && n != TAIL && nodes'[n].linked ensures LinkOk(nodes', n) {
      assert LinkOk(nodes, n);
    }
    forall k | k in m ensures HasNode(nodes', k) {
      var x: nat :| InList(nodes, x) && nodes[x].key == k;
      assert InList(nodes', x);
    }
  }

  lemma OnceSame(s: State, s': State, t: Tid, th': Thread)
    requires OnceEach(s) && t in s.threads && s'.threads == s.threads[t := th'] && s'.done == s.done
    requires Effective(th') == Effective(s.threads[t])
    ensures OnceEach(s')
  {
  }

  lemma BeginOk(s: State, s': State, t: Tid, op: Op)
    requires Inv(s) && t in s.threads && s.threads[t].pc == Idle && Step(s, s', t, op) && s'.threads[t].pc != Lost
    ensures Inv(s')
  {
    OnceSame(s, s', t, s'.threads[t]);
    if op.Insert? {
      SameList(s.nodes, s'.nodes, MapOf(s.done));
      forall u | u in s.threads && u != t && Making(s.threads[u]) ensures s.threads[u].made != |s.nodes| {
        assert ThreadOk(s.nodes, s.threads[u]);
      }
    }
    OthersOk(s, s', t, |s.nodes|);
  }

  /** A step that leaves the list alone, with or without an effect. */
  lemma QuietOk(s: State, s': State, t: Tid, th': Thread)
    requires Inv(s) && t in s.threads && s'.nodes == s.nodes && s'.threads == s.threads[t := th']
    requires ThreadOk(s.nodes, th') && (Making(th') ==> Making(s.threads[t]) && th'.made == s.threads[t].made)
    requires Legal(s'.done) && MapOf(s'.done) == MapOf(s.done) && OnceEach(s')
    ensures Inv(s')
  {
  }

  lemma SearchOk(s: State, s': State, t: Tid, op: Op)
    requires Inv(s) && t in s.threads && s.threads[t].pc == Search && Step(s, s', t, op)
    ensures Inv(s')
  {
    var th := s.threads[t];
    assert ThreadOk(s.nodes, th);
    assert LinkOk(s.nodes, th.iter);
    if Stops(s.nodes, s.nodes[th.iter].next, th.op.key) {
      StopsWhere(s.nodes, MapOf(s.done), th.iter, th.op.key);
      if s'.threads[t].pc == Idle {
        LegalMore(s.done, s'.done[|s.done|]);
        OnceMore(s, s', t, s'.threads[t], s'.done[|s.done|]);
      }
    }
    QuietOk(s, s', t, s'.threads[t]);
  }

  lemma SetNextOk(s: State, s': State, t: Tid, op: Op)
    requires Inv(s) && t in s.threads && s.threads[t].pc == SetNext && Step(s, s', t, op)
    ensures Inv(s')
  {
    var th := s.threads[t];
    assert ThreadOk(s.nodes, th);
    SameList(s.nodes, s'.nodes, MapOf(s.done));
    OnceSame(s, s', t, s'.threads[t]);
    OthersOk(s, s', t, th.made);
  }

  /** Swapping a node in between two neighbours keeps the list sorted and adds the key to the map. */
  lemma SwapList(nodes: seq<Node>, m: map<Key, Val>, left: nat, f: nat)
    requires ListOk(nodes) && Holds(nodes, m) && left < |nodes| && left != TAIL && nodes[left].linked
    requires 1 < f < |nodes| && !nodes[f].linked && nodes[left].key < nodes[f].key && nodes[f].next == nodes[left].next
    requires nodes[left].next != TAIL && nodes[left].next < |nodes| ==> nodes[f].key < nodes[nodes[left].next].key
    ensures nodes[f].key !in m
    ensures ListOk(Linked(nodes, left, f)) && Holds(Linked(nodes, left, f), m[nodes[f].key := nodes[f].val])
  {
    var nodes' := Linked(nodes, left, f);
    assert LinkOk(nodes, left);
    assert left != HEAD ==> InList(nodes, left);
    StopsWhere(nodes, m, left, nodes[f].key);
    assert forall x: nat :: InList(nodes', x) <==> InList(nodes, x) || x == f;
    forall n | 0 <= n < |nodes'| && n != TAIL && nodes'[n].linked ensures LinkOk(nodes', n) {
      SwapLink(nodes, left, f, n);
    }
    SwapHolds(nodes, nodes', m, f);
  }

  lemma SwapLink(nodes: seq<Node>, left: nat, f: nat, n: nat)
    requires ListOk(nodes) && left < |nodes| && left != TAIL && nodes[left].linked
    requires 1 < f < |nodes| && !nodes[f].linked && nodes[left].key < nodes[f].key && nodes[f].next == nodes[left].next
    requires nodes[left].next != TAIL && nodes[left].next < |nodes| ==> nodes[f].key < nodes[nodes[left].next].key
    requires n < |nodes| && n != TAIL && (nodes[n].linked || n == f)
    ensures LinkOk(Linked(nodes, left, f), n)
  {
    var nodes' := Linked(nodes, left, f);
    assert LinkOk(nodes, left);
    assert forall x: nat :: InList(nodes', x) <==> InList(nodes, x) || x == f;
    if n != f && n != left {
      assert LinkOk(nodes, n);
      assert left != HEAD ==> InList(nodes, left);
      assert n != HEAD ==> InList(nodes, n);
    }
  }

  lemma SwapHolds(nodes: seq<Node>, nodes': seq<Node>, m: map<Key, Val>, f: nat)
    requires Holds(nodes, m) && |nodes'| == |nodes| && 1 < f < |nodes| && nodes[f].key !in m
    requires forall x: nat :: InList(nodes', x) <==> InList(nodes, x) || x == f
    requires forall x :: 0 <= x < |nodes| ==> nodes'[x].key == nodes[x].key && nodes'[x].val == nodes[x].val
    ensures Holds(nodes', m[nodes[f].key := nodes[f].val])
  {
    var m' := m[nodes[f].key := nodes[f].val];
    forall x: nat | InList(nodes', x) ensures MapGet(m', nodes'[x].key) == Some(nodes'[x].val) {
      assert x != f ==> InList(nodes, x) && MapGet(m, nodes[x].key) == Some(nodes[x].val);
    }
    forall k | k in m' ensures HasNode(nodes', k) {
      if k in m {
        var x: nat :| InList(nodes, x) && nodes[x].key == k;
        assert InList(nodes', x);
      } else {
        assert InList(nodes', f);
      }
    }
  }

  lemma SwapOk(s: State, s': State, t: Tid, op: Op)
    requires Inv(s) && t in s.threads && s.threads[t].pc == Swap && Step(s, s', t, op)
    ensures Inv(s')
  {
    var th := s.threads[t];
    assert ThreadOk(s.nodes, th);
    if s.nodes[th.iter].next == th.right {
      SwapList(s.nodes, MapOf(s.done), th.iter, th.made);
      LegalMore(s.done, s'.done[|s.done|]);
      OnceMore(s, s', t, s'.threads[t], s'.done[|s.done|]);
      OthersOk(s, s', t, th.made);
    } else {
      assert s.nodes[HEAD].key <= s.nodes[th.iter].key by {
        assert th.iter != HEAD ==> InList(s.nodes, th.iter);
      }
    }
  }

  lemma InvStep(s: State, s': State)
    requires Inv(s) && Next(s, s') && NoneLost(s')
    ensures Inv(s')
  {
    var t, op :| t in s.threads && Step(s, s', t, op);
    assert ThreadOk(s.nodes, s.threads[t]);
    match s.threads[t].pc
    case Idle => BeginOk(s, s', t, op);
    case Search => SearchOk(s, s', t, op);
    case SetNext => SetNextOk(s, s', t, op);
    case Swap => SwapOk(s, s', t, op);
  }

  /** A thread that is lost stays so, and effects are only added. */
  lemma StepGrows(s: State, s': State)
    requires Next(s, s')
    ensures s.done <= s'.done && s'.threads.Keys == s.threads.Keys && (NoneLost(s') ==> NoneLost(s))
  {
    var t, op :| t in s.threads && Step(s, s', t, op);
    forall u | u in s.threads && s.threads[u].pc == Lost ensures u in s'.threads && s'.threads[u].pc == Lost {
    }
  }

  lemma {:induction false} InvRun(run: seq<State>, i: nat)
    requires Run(run) && i < |run| && NoneLost(run[i])
    ensures Inv(run[i])
  {
    if i > 0 {
      assert Stepped(run, i - 1);
      StepGrows(run[i - 1], run[i]);
      InvRun(run, i - 1);
      InvStep(run[i - 1], run[i]);
    }
  }

  // ---- Calls ----

  /** In step `i` thread `t` makes its call `number` and asks for `op`. */
  ghost predicate CalledIn(run: seq<State>, i: nat, t: Tid, number: nat, op: Op) {
    && i + 1 < |run| && t in run[i].threads && run[i].threads[t].pc == Idle && run[i].threads[t].begun == number
    && Step(run[i], run[i + 1], t, op)
  }

  /** The effect is that of the call with its number, made before state `j`: it is what was asked for then. */
  ghost predicate IsOfCall(run: seq<State>, j: nat, e: Effect) {
    exists i: nat :: i < j && CalledIn(run, i, e.tid, e.number, e.op)
  }

  /** Only a step of its own from `Idle` brings a thread to another call. */
  lemma CallKept(s: State, s': State, t: Tid, op: Op, u: Tid)
    requires t in s.threads && u in s.threads && Step(s, s', t, op)
    ensures u in s'.threads
    ensures if u == t && s.threads[t].pc == Idle
            then s'.threads[u].begun == s.threads[u].begun + 1 && s'.threads[u].op == op
            else s'.threads[u].begun == s.threads[u].begun && s'.threads[u].op == s.threads[u].op
    ensures s.threads[u].pc == Idle && s'.threads[u].pc != Idle ==> u == t
  {
  }

  /** What takes effect is the operation that the thread is at. */
  lemma EffectMade(s: State, s': State, t: Tid, op: Op)
    requires t in s.threads && Step(s, s', t, op) && s.threads[t].pc != Idle && s.threads[t].begun > 0
    ensures s'.done == s.done ||
            (|s'.done| == |s.done| + 1 && s.done <= s'.done &&
             var e := s'.done[|s.done|];
             e.tid == t && e.op == s.threads[t].op && e.number + 1 == s.threads[t].begun)
  {
  }

  lemma {:induction false} AtCall(run: seq<State>, i: nat, t: Tid)
    requires Run(run) && i < |run| && t in run[i].threads && run[i].threads[t].pc != Idle
    ensures run[i].threads[t].begun > 0
  {
    assert i > 0;
    EffectsGrow(run, i - 1, i);
    assert Stepped(run, i - 1);
    var u, op :| u in run[i - 1].threads && Step(run[i - 1], run[i], u, op);
    CallKept(run[i - 1], run[i], u, op, t);
    if run[i - 1].threads[t].pc != Idle {
      AtCall(run, i - 1, t);
    }
  }

  /** The number of calls of a thread grows, and as long as it stays the operation is the same. */
  lemma {:induction false} OpStays(run: seq<State>, i: nat, j: nat, t: Tid)
    requires Run(run) && i <= j < |run| && t in run[i].threads
    ensures t in run[j].threads && run[i].threads[t].begun <= run[j].threads[t].begun
    ensures run[i].threads[t].begun == run[j].threads[t].begun ==> run[i].threads[t].op == run[j].threads[t].op
  {
    if i < j {
      OpStays(run, i, j - 1, t);
      assert Stepped(run, j - 1);
      var u, op :| u in run[j - 1].threads && Step(run[j - 1], run[j], u, op);
      CallKept(run[j - 1], run[j], u, op, t);
    }
  }

  /** A thread that is at a call, or was at last, has made it in an earlier step. */
  lemma {:induction false} CallOf(run: seq<State>, j: nat, t: Tid) returns (i: nat)
    requires Run(run) && j < |run| && t in run[j].threads && run[j].threads[t].begun > 0
    ensures i < j && CalledIn(run, i, t, run[j].threads[t].begun - 1, run[j].threads[t].op)
  {
    assert j > 0;
    EffectsGrow(run, j - 1, j);
    assert Stepped(run, j - 1);
    var u, op :| u in run[j - 1].threads && Step(run[j - 1], run[j], u, op);
    CallKept(run[j - 1], run[j], u, op, t);
    if u == t && run[j - 1].threads[t].pc == Idle {
      i := j - 1;
    } else {
      i := CallOf(run, j - 1, t);
    }
  }

  /** When effect `x` was made its thread was at the call with its number, and at its operation. */
  lemma {:induction false} EffectAt(run: seq<State>, j: nat, x: nat) returns (m: nat)
    requires Run(run) && j < |run| && x < |run[j].done|
    ensures m < j && run[j].done[x].tid in run[m].threads
    ensures var th := run[m].threads[run[j].done[x].tid];
            th.begun == run[j].done[x].number + 1 && th.op == run[j].done[x].op
  {
    assert j > 0;
    EffectsGrow(run, j - 1, j);
    assert Stepped(run, j - 1);
    var t, op :| t in run[j - 1].threads && Step(run[j - 1], run[j], t, op);
    if x < |run[j - 1].done| {
      assert run[j].done[x] == run[j - 1].done[x];
      m := EffectAt(run, j - 1, x);
    } else {
      assert run[j - 1].threads[t].pc != Idle;
      AtCall(run, j - 1, t);
      EffectMade(run[j - 1], run[j], t, op);
      m := j - 1;
    }
  }

  lemma EffectIsOfCall(run: seq<State>, j: nat, x: nat)
    requires Run(run) && j < |run| && x < |run[j].done|
    ensures IsOfCall(run, j, run[j].done[x])
  {
    var m := EffectAt(run, j, x);
    var i := CallOf(run, m, run[j].done[x].tid);
  }

  /** Whenever a thread is at the call with the number of an effect it is at the operation of the effect. */
  lemma EffectOfCall(run: seq<State>, i: nat, j: nat, x: nat)
    requires Run(run) && i < |run| && j < |run| && x < |run[j].done| && run[j].done[x].tid in run[i].threads
    requires run[i].threads[run[j].done[x].tid].begun == run[j].done[x].number + 1
    ensures run[i].threads[run[j].done[x].tid].op == run[j].done[x].op
  {
    var m := EffectAt(run, j, x);
    var t := run[j].done[x].tid;
    if i <= m {
      OpStays(run, i, m, t);
    } else {
      OpStays(run, m, i, t);
    }
  }

  // ---- Linearizability ----

  /** As long as every search has come to a left node, the operations that have taken effect, replayed one
      after the other on a map, give the results of the lookups; each call that has returned is among them
      once, as what was asked for in the step that made the call; and the list holds exactly the map they make. */
  lemma Linearizable(run: seq<State>, i: nat)
    requires Run(run) && i < |run| && NoneLost(run[i])
    ensures Legal(run[i].done) && OnceEach(run[i])
    ensures forall x :: 0 <= x < |run[i].done| ==> IsOfCall(run, i, run[i].done[x])
    ensures exists p :: IsList(run[i].nodes, p) && Lists(run[i].nodes, p, MapOf(run[i].done))
  {
    forall x | 0 <= x < |run[i].done| ensures IsOfCall(run, i, run[i].done[x]) {
      EffectIsOfCall(run, i, x);
    }
    InvRun(run, i);
    var p := WholeList(run[i].nodes);
    ListsMap(run[i].nodes, p, MapOf(run[i].done));
  }

  lemma {:induction false} EffectsGrow(run: seq<State>, i: nat, j: nat)
    requires Run(run) && i <= j < |run|
    ensures run[i].done <= run[j].done && run[i].threads.Keys == run[j].threads.Keys
    ensures NoneLost(run[j]) ==> NoneLost(run[i])
  {
    if i < j {
      EffectsGrow(run, i, j - 1);
      assert Stepped(run, j - 1);
      StepGrows(run[j - 1], run[j]);
    }
  }

  /** Call `number` of `t` has returned. */
  predicate Returned(s: State, t: Tid, number: nat) {
    t in s.threads && number < s.threads[t].begun && (s.threads[t].pc == Idle || number + 1 < s.threads[t].begun)
  }

  predicate NotCalled(s: State, t: Tid, number: nat) {
    t in s.threads && s.threads[t].begun <= number
  }

  /** The order of effects agrees with real time: a call that had returned before another was made took effect
      before it. */
  lemma RealTime(run: seq<State>, i: nat, j: nat, x: nat, y: nat)
    requires Run(run) && i <= j < |run| && NoneLost(run[j]) && x < |run[j].done| && y < |run[j].done|
    requires Returned(run[i], run[j].done[x].tid, run[j].done[x].number)
    requires NotCalled(run[i], run[j].done[y].tid, run[j].done[y].number)
    ensures x < y
  {
    EffectsGrow(run, i, j);
    InvRun(run, i);
    InvRun(run, j);
    var a, b := run[j].done[x], run[j].done[y];
    assert Took(run[i].done, a.tid, a.number);
    var z :| 0 <= z < |run[i].done| && IsCall(run[i].done[z], a.tid, a.number);
    assert run[j].done[z] == run[i].done[z];
    assert !Took(run[i].done, b.tid, b.number);
    assert forall n :: 0 <= n < |run[i].done| ==> run[j].done[n] == run[i].done[n];
  }

  // ---- Following the list ----

  /** Following `next` from the head, these nodes are come to, in ascending order of keys, and then the tail. */
  ghost predicate IsList(nodes: seq<Node>, p: seq<nat>) {
    IsPath(nodes, p) && p[0] == HEAD
  }

  ghost predicate IsPath(nodes: seq<Node>, p: seq<nat>) {
    && |p| >= 2 && p[|p| - 1] == TAIL && (forall i :: 0 <= i < |p| ==> p[i] < |nodes|)
    && (forall i :: 0 <= i < |p| - 1 ==> p[i] != TAIL && nodes[p[i]].next == p[i + 1])
    && (forall i :: 0 <= i < |p| - 2 ==> nodes[p[i]].key < nodes[p[i + 1]].key)
  }

  /** The nodes between head and tail are the map, each key once. */
  ghost predicate Lists(nodes: seq<Node>, p: seq<nat>, m: map<Key, Val>)
    requires IsList(nodes, p)
  {
    && (forall i :: 0 < i < |p| - 1 ==> MapGet(m, nodes[p[i]].key) == Some(nodes[p[i]].val))
    && (forall k :: k in m ==> OnPath(nodes, p, k))
  }

  ghost predicate OnPath(nodes: seq<Node>, p: seq<nat>, k: Key)
    requires IsList(nodes, p)
  {
    exists i :: 0 < i < |p| - 1 && nodes[p[i]].key == k
  }

  ghost function Above(nodes: seq<Node>, n: nat): set<nat>
    requires n < |nodes|
  {
    set x: nat | x < |nodes| && InList(nodes, x) && nodes[n].key < nodes[x].key
  }

  /** The way from a linked node to the tail leads through exactly the linked nodes above it. */
  lemma {:induction false} PathFrom(nodes: seq<Node>, n: nat) returns (p: seq<nat>)
    requires ListOk(nodes) && n < |nodes| && n != TAIL && nodes[n].linked
    ensures IsPath(nodes, p) && p[0] == n
    ensures forall i :: 0 < i < |p| - 1 ==> InList(nodes, p[i])
    ensures forall x: nat :: InList(nodes, x) && nodes[n].key < nodes[x].key ==> x in p
    decreases |Above(nodes, n)|
  {
    var r := nodes[n].next;
    assert LinkOk(nodes, n);
    if r == TAIL {
      p := [n, TAIL];
    } else {
      assert InList(nodes, r);
      FewerAbove(nodes, n, r);
      var rest := PathFrom(nodes, r);
      p := [n] + rest;
      forall x: nat | InList(nodes, x) && nodes[n].key < nodes[x].key ensures x in p {
        if x != r {
          assert nodes[r].key < nodes[x].key;
        } else {
          assert rest[0] == r;
        }
      }
    }
  }

  lemma FewerAbove(nodes: seq<Node>, n: nat, r: nat)
    requires n < |nodes| && InList(nodes, r) && nodes[n].key < nodes[r].key
    ensures |Above(nodes, r)| < |Above(nodes, n)|
  {
    var a, b := Above(nodes, r), Above(nodes, n);
    assert a <= b - {r};
    SubsetSize(a, b - {r});
  }

  lemma {:induction false} SubsetSize(a: set<nat>, b: set<nat>)
    requires a <= b
    ensures |a| <= |b|
  {
    if a != {} {
      var x :| x in a;
      SubsetSize(a - {x}, b - {x});
    }
  }

  lemma WholeList(nodes: seq<Node>) returns (p: seq<nat>)
    requires ListOk(nodes)
    ensures IsList(nodes, p) && forall i :: 0 < i < |p| - 1 ==> InList(nodes, p[i])
    ensures forall x: nat :: InList(nodes, x) ==> x in p
  {
    p := PathFrom(nodes, HEAD);
  }

  lemma ListsMap(nodes: seq<Node>, p: seq<nat>, m: map<Key, Val>)
    requires Holds(nodes, m) && IsList(nodes, p) && forall i :: 0 < i < |p| - 1 ==> InList(nodes, p[i])
    requires forall x: nat :: InList(nodes, x) ==> x in p
    ensures Lists(nodes, p, m)
  {
    forall k | k in m ensures OnPath(nodes, p, k) {
      assert HasNode(nodes, k);
      var x: nat :| InList(nodes, x) && nodes[x].key == k;
      var i :| 0 <= i < |p| && p[i] == x;
    }
  }

  // ---- Searches without a left node ----

  /** The call of an insert comes to a left node, the head to begin with, if and only if its key is above the
      key of the head. */
  lemma LeftNode(s: State, s': State, t: Tid, op: Op)
    requires t in s.threads && s.threads[t].pc == Idle && Step(s, s', t, op) && op.Insert?
    ensures |s.nodes| > 0 && t in s'.threads
    ensures s'.threads[t].pc == Search <==> s.nodes[HEAD].key < op.key
    ensures s'.threads[t].pc == Lost <==> op.key <= s.nodes[HEAD].key
  {
  }

  /** All inserts that the threads are at, or were at last, have keys above this one. */
  ghost predicate KeysAbove(s: State, head: Key) {
    forall t :: t in s.threads && s.threads[t].begun > 0 && s.threads[t].op.Insert? ==> head < s.threads[t].op.key
  }

  lemma HeadStays(s: State, s': State, t: Tid, op: Op)
    requires |s.nodes| >= 2 && t in s.threads && Step(s, s', t, op) && s.threads[t].pc != Lost
    requires s.threads[t].pc != Idle && s.threads[t].op.Insert? ==> s.threads[t].made > 1
    ensures |s'.nodes| > 0 && s'.nodes[HEAD].key == s.nodes[HEAD].key
  {
  }

  /** The one thread that moves is lost if and only if it calls an insert with a key that is not above. */
  lemma MoverAbove(s: State, s': State, t: Tid, op: Op)
    requires |s.nodes| >= 2 && t in s.threads && Step(s, s', t, op) && s.threads[t].pc != Lost
    requires var th := s.threads[t]; th.begun > 0 && th.op.Insert? ==> s.nodes[HEAD].key < th.op.key
    requires s.threads[t].pc != Idle ==> s.threads[t].begun > 0
    ensures s'.threads == s.threads[t := s'.threads[t]]
    ensures var th := s'.threads[t];
            th.pc == Lost <==> th.begun > 0 && th.op.Insert? && th.op.key <= s.nodes[HEAD].key
  {
  }

  lemma AboveStep(s: State, s': State, head: Key)
    requires Inv(s) && Next(s, s') && s.nodes[HEAD].key == head && KeysAbove(s, head)
    ensures |s'.nodes| > 0 && s'.nodes[HEAD].key == head && (NoneLost(s') <==> KeysAbove(s', head))
  {
    var t, op :| t in s.threads && Step(s, s', t, op);
    assert forall u :: u in s.threads ==> ThreadOk(s.nodes, s.threads[u]);
    HeadStays(s, s', t, op);
    MoverAbove(s, s', t, op);
  }

  lemma {:induction false} AboveRun(run: seq<State>, i: nat)
    requires Run(run) && i < |run| && NoneLost(run[i])
    ensures |run[i].nodes| > 0 && run[i].nodes[HEAD].key == run[0].nodes[HEAD].key
    ensures KeysAbove(run[i], run[0].nodes[HEAD].key)
  {
    if i > 0 {
      assert Stepped(run, i - 1);
      StepGrows(run[i - 1], run[i]);
      AboveRun(run, i - 1);
      InvRun(run, i - 1);
      AboveStep(run[i - 1], run[i], run[0].nodes[HEAD].key);
    }
  }

  lemma {:induction false} FirstLost(run: seq<State>, i: nat) returns (j: nat)
    requires Run(run) && i < |run| && !NoneLost(run[i])
    ensures j <= i && !KeysAbove(run[j], run[0].nodes[HEAD].key)
  {
    if i > 0 && !NoneLost(run[i - 1]) {
      j := FirstLost(run, i - 1);
    } else {
      j := i;
      assert Stepped(run, i - 1);
      AboveRun(run, i - 1);
      InvRun(run, i - 1);
      AboveStep(run[i - 1], run[i], run[0].nodes[HEAD].key);
    }
  }

  /** All searches have come to a left node if and only if all keys inserted so far are above that of the head. */
  lemma NoneLostIff(run: seq<State>, i: nat)
    requires Run(run) && i < |run|
    ensures NoneLost(run[i]) <==> forall j :: 0 <= j <= i ==> KeysAbove(run[j], run[0].nodes[HEAD].key)
  {
    if NoneLost(run[i]) {
      forall j | 0 <= j <= i ensures KeysAbove(run[j], run[0].nodes[HEAD].key) {
        EffectsGrow(run, j, i);
        AboveRun(run, j);
      }
    } else {
      var j := FirstLost(run, i);
    }
  }

  /** The key of the head is inserted into an empty list.  The insert may then do anything to the list, even cut
      the tail off. */
  lemma HeadKeyInserted(t: Tid, head: Key, val: Val) returns (run: seq<State>)
    ensures Run(run) && |run| == 3 && t in run[1].threads && t in run[2].threads
    ensures run[1].threads[t].op == Insert(head, val) && run[0].nodes[HEAD].key == head
    ensures run[2].threads[t].pc == Lost && !exists p :: IsList(run[2].nodes, p)
  {
    var nodes := [Node(head, 0, TAIL, true), Node(head + 1, 0, TAIL, true)];
    var idle := Thread(Idle, 0, Find(head), HEAD, TAIL, 0);
    var lost := Thread(Lost, 1, Insert(head, val), HEAD, TAIL, 2);
    var more := nodes + [Node(head, val, TAIL, false)];
    var cut := more[HEAD := more[HEAD].(next := HEAD)];
    run := [State(nodes, map[t := idle], []), State(more, map[t := lost], []), State(cut, map[t := lost], [])];
    assert Step(run[0], run[1], t, Insert(head, val));
    assert Step(run[1], run[2], t, Insert(head, val));
    assert Stepped(run, 0) && Stepped(run, 1);
    forall p | IsList(cut, p) ensures false {
      NeverLeaves(cut, p, |p| - 1);
    }
  }

  lemma {:induction false} NeverLeaves(nodes: seq<Node>, p: seq<nat>, i: nat)
    requires IsList(nodes, p) && nodes[HEAD].next == HEAD && i < |p|
    ensures p[i] == HEAD
  {
    if i > 0 {
      NeverLeaves(nodes, p, i - 1);
    }
  }
}
