/** A call of the sorted list that nobody disturbs ends, after no more steps than the list has nodes and a few, and
    every thread can always go on. */
module LockFreeLone {
  import opened Options
  import opened LockFreeList

  /** The step from state `j` is one of thread `t` in the course of a call. */
  ghost predicate WorksIn(run: seq<State>, j: nat, t: Tid) {
    && j + 1 < |run| && t in run[j].threads && run[j].threads[t].pc != Idle
    && StepOf(run[j], run[j + 1], t)
  }

  ghost predicate StepOf(s: State, s': State, t: Tid) {
    t in s.threads && exists op :: Step(s, s', t, op)
  }

  ghost predicate WorksAlone(run: seq<State>, b: nat, i: nat, t: Tid) {
    b <= i < |run| && forall j: nat {:trigger WorksIn(run, j, t)} :: b <= j < i ==> WorksIn(run, j, t)
  }

  /** What an insert has found still stands. */
  predicate Stands(nodes: seq<Node>, th: Thread) {
    th.pc in {SetNext, Swap} ==> th.iter < |nodes| && th.iter != th.made && nodes[th.iter].next == th.right
  }

  /** The most steps it has still to take. */
  ghost function Distance(nodes: seq<Node>, th: Thread): nat {
    match th.pc
    case Search => if th.iter < |nodes| then |Above(nodes, th.iter)| + 3 else 0
    case SetNext => 2
    case Swap => 1
    case _ => 0
  }

  lemma SearchNearer(s: State, s': State, t: Tid)
    requires Inv(s) && t in s.threads && s.threads[t].pc == Search && StepSearch(s, s', t, s.threads[t])
    ensures s'.nodes == s.nodes && t in s'.threads && Stands(s'.nodes, s'.threads[t])
    ensures Distance(s'.nodes, s'.threads[t]) < Distance(s.nodes, s.threads[t])
  {
    var th := s.threads[t];
    assert ThreadOk(s.nodes, th) && LinkOk(s.nodes, th.iter);
    var r := s.nodes[th.iter].next;
    if !Stops(s.nodes, r, th.op.key) {
      assert InList(s.nodes, r);
      FewerAbove(s.nodes, th.iter, r);
    }
  }

  lemma StepNearer(s: State, s': State, t: Tid, op: Op)
    requires Inv(s) && t in s.threads && s.threads[t].pc != Idle && Step(s, s', t, op) && Stands(s.nodes, s.threads[t])
    ensures t in s'.threads && Stands(s'.nodes, s'.threads[t])
    ensures Distance(s'.nodes, s'.threads[t]) < Distance(s.nodes, s.threads[t])
  {
    assert ThreadOk(s.nodes, s.threads[t]);
    if s.threads[t].pc == Search {
      SearchNearer(s, s', t);
    }
  }

  lemma {:induction false} RunNearer(run: seq<State>, b: nat, i: nat, j: nat, t: Tid)
    requires Run(run) && WorksAlone(run, b, i, t) && NoneLost(run[i]) && b <= j <= i && t in run[b].threads
    requires Stands(run[b].nodes, run[b].threads[t])
    ensures t in run[j].threads && Stands(run[j].nodes, run[j].threads[t])
    ensures Distance(run[j].nodes, run[j].threads[t]) <= Distance(run[b].nodes, run[b].threads[t]) - (j - b)
  {
    if b < j {
      RunNearer(run, b, i, j - 1, t);
      EffectsGrow(run, j - 1, i);
      InvRun(run, j - 1);
      assert WorksIn(run, j - 1, t);
      var op :| Step(run[j - 1], run[j], t, op);
      StepNearer(run[j - 1], run[j], t, op);
    }
  }

  function Indices(n: nat): (all: set<nat>)
    ensures |all| == n && forall x: nat :: x in all <==> x < n
  {
    if n == 0 then {} else Indices(n - 1) + {n - 1}
  }

  lemma FewAbove(nodes: seq<Node>, n: nat)
    requires n < |nodes|
    ensures |Above(nodes, n)| <= |nodes|
  {
    SubsetSize(Above(nodes, n), Indices(|nodes|));
  }

  /** In every run without a lost search: a call that begins its search in state `b`, and during which nobody else
      moves, is over after as many steps as the list has nodes, and three. */
  lemma LoneCallEnds(run: seq<State>, b: nat, i: nat, t: Tid)
    requires Run(run) && WorksAlone(run, b, i, t) && NoneLost(run[i]) && t in run[b].threads
    requires run[b].threads[t].pc == Search
    ensures i - b <= |run[b].nodes| + 3
  {
    RunNearer(run, b, i, i, t);
    if run[b].threads[t].iter < |run[b].nodes| {
      FewAbove(run[b].nodes, run[b].threads[t].iter);
    }
  }

  /** Every thread whose call is under way can take its next step. */
  lemma NeverStuck(run: seq<State>, i: nat, t: Tid) returns (s': State, op: Op)
    requires Run(run) && i < |run| && NoneLost(run[i]) && t in run[i].threads
    ensures Step(run[i], s', t, op)
  {
    InvRun(run, i);
    var s, th := run[i], run[i].threads[t];
    assert ThreadOk(s.nodes, th);
    op := Find(0);
    match th.pc
    case Idle => s' := Put(s, t, Thread(Search, th.begun + 1, op, HEAD, TAIL, 0));
    case Search =>
      assert LinkOk(s.nodes, th.iter);
      var r := s.nodes[th.iter].next;
      var there := r != TAIL && s.nodes[r].key == th.op.key;
      if !Stops(s.nodes, r, th.op.key) {
        s' := Put(s, t, th.(iter := r));
      } else if th.op.Insert? && !there {
        s' := Put(s, t, th.(right := r, pc := SetNext));
      } else {
        var result := if there && th.op.Find? then Some(s.nodes[r].val) else None;
        s' := Put(s.(done := TookEffect(s, t, th, result)), t, th.(pc := Idle));
      }
    case SetNext =>
      s' := Put(s.(nodes := s.nodes[th.made := s.nodes[th.made].(next := th.right)]), t, th.(pc := Swap));
    case Swap =>
      s' := if s.nodes[th.iter].next == th.right
            then Put(s.(nodes := Linked(s.nodes, th.iter, th.made), done := TookEffect(s, t, th, None)),
                     t, th.(pc := Idle))
            else Put(s, t, th.(iter := HEAD, pc := Search));
  }
}
