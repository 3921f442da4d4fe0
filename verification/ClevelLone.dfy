/** Searches that nobody disturbs: they end, and find the key if and only if it is there. */
module ClevelLone {
  import opened Options
  import opened ClevelMachine
  import opened ClevelChain
  import opened ClevelSearch

  /** The step from state `j` is one of worker `t` in the course of a search. */
  ghost predicate SearchesIn(h: Hashing, run: seq<State>, j: nat, t: Tid) {
    && j + 1 < |run| && t in run[j].workers && t in run[j + 1].workers && IsSearching(run[j].workers[t].pc)
    && WorkerMoves(h, run[j], run[j + 1], t, run[j + 1].workers[t])
  }

  ghost predicate SearchesAlone(h: Hashing, run: seq<State>, b: nat, i: nat, t: Tid) {
    b <= i < |run| && forall j: nat {:trigger SearchesIn(h, run, j, t)} :: b <= j < i ==> SearchesIn(h, run, j, t)
  }

  /** None of the slots before this one, from the last level on, holds the key. */
  ghost predicate NotBefore(h: Hashing, sh: Shared, k: Key, level: nat, pos: nat)
    requires |sh.metas| > 0
  {
    forall l: nat, p: nat :: Last(sh) <= l && (l < level || (l == level && p < pos)) ==> !Occurs(h, sh, k, l, p)
  }

  /** Where a lone search stands, and what it knows. */
  ghost predicate Stands(h: Hashing, sh: Shared, th: Thread) {
    && |sh.metas| > 0
    && match th.pc
       case SearchLoad => true
       case SearchRead =>
         && th.m == Current(sh) && Last(sh) <= th.level <= First(sh) && th.pos < 2 * ASSOC_NUM
         && NotBefore(h, sh, th.key, th.level, th.pos)
       case SearchNext =>
         th.m == Current(sh) && Last(sh) <= th.level <= First(sh) && NotBefore(h, sh, th.key, th.level + 1, 0)
       case SearchCheck => th.m == Current(sh) && !Present(h, sh, th.key)
       case SearchFound => Present(h, sh, th.key)
       case SearchMissed => !Present(h, sh, th.key)
       case _ => false
  }

  /** The most steps it has still to take. */
  function Distance(sh: Shared, th: Thread): int
    requires |sh.metas| > 0
  {
    match th.pc
    case SearchLoad => (First(sh) - Last(sh)) * 9 + 11
    case SearchRead => (First(sh) - th.level) * 9 + 10 - th.pos
    case SearchNext => (First(sh) - th.level) * 9 + 2
    case SearchCheck => 1
    case _ => 0
  }

  lemma ReadStands(h: Hashing, sh: Shared, th: Thread, th': Thread)
    requires SharedOk(sh) && Stands(h, sh, th) && SearchStep(h, sh, th, th') && th.pc == SearchRead
    ensures Stands(h, sh, th') && th'.key == th.key && Distance(sh, th') < Distance(sh, th)
  {
    if th'.pc == SearchFound {
      assert Occurs(h, sh, th.key, th.level, th.pos);
    } else {
      forall l: nat, p: nat | Last(sh) <= l && (l < th.level || (l == th.level && p < th.pos + 1))
        ensures !Occurs(h, sh, th.key, l, p)
      {
        assert l == th.level && p == th.pos ==> !Occurs(h, sh, th.key, l, p);
      }
    }
  }

  lemma NextStands(h: Hashing, sh: Shared, th: Thread, th': Thread)
    requires SharedOk(sh) && Stands(h, sh, th) && SearchStep(h, sh, th, th') && th.pc == SearchNext
    ensures Stands(h, sh, th') && th'.key == th.key && Distance(sh, th') < Distance(sh, th)
  {
    assert LevelOk(sh.levels, th.level);
  }

  lemma StepStands(h: Hashing, sh: Shared, th: Thread, th': Thread)
    requires SharedOk(sh) && Stands(h, sh, th) && SearchStep(h, sh, th, th') && IsSearching(th.pc)
    ensures Stands(h, sh, th') && th'.key == th.key && Distance(sh, th') < Distance(sh, th)
  {
    if th.pc == SearchRead {
      ReadStands(h, sh, th, th');
    } else if th.pc == SearchNext {
      NextStands(h, sh, th, th');
    }
  }

  lemma {:induction false} RunStands(h: Hashing, k: Key, run: seq<State>, b: nat, i: nat, j: nat, t: Tid)
    requires Run(h, k, run) && SearchesAlone(h, run, b, i, t) && b <= j <= i && t in run[b].workers
    requires Stands(h, run[b].sh, run[b].workers[t])
    ensures t in run[j].workers && run[j].sh == run[b].sh && run[j].workers[t].key == run[b].workers[t].key
    ensures Stands(h, run[j].sh, run[j].workers[t])
    ensures Distance(run[j].sh, run[j].workers[t]) <= Distance(run[b].sh, run[b].workers[t]) - (j - b)
  {
    if b < j {
      RunStands(h, k, run, b, i, j - 1, t);
      InvRun(h, k, run, j - 1);
      assert SearchesIn(h, run, j - 1, t);
      StepStands(h, run[j - 1].sh, run[j - 1].workers[t], run[j].workers[t]);
    }
  }

  /** In every run, a search that begins in state `b`, and during which nobody else moves, is over after a number of
      steps that the number of levels tells; it ends with its key found if and only if the key is in the table. */
  lemma LoneSearch(h: Hashing, k: Key, run: seq<State>, b: nat, i: nat, t: Tid)
    requires Run(h, k, run) && SearchesAlone(h, run, b, i, t) && t in run[b].workers
    requires run[b].workers[t].pc == SearchLoad
    ensures |run[b].sh.metas| > 0 && i - b <= (First(run[b].sh) - Last(run[b].sh)) * 9 + 11
    ensures t in run[i].workers
    ensures run[i].workers[t].pc == SearchFound ==> Present(h, run[b].sh, run[b].workers[t].key)
    ensures run[i].workers[t].pc == SearchMissed ==> !Present(h, run[b].sh, run[b].workers[t].key)
    ensures IsSearching(run[i].workers[t].pc) || run[i].workers[t].pc in {SearchFound, SearchMissed}
  {
    InvRun(h, k, run, b);
    RunStands(h, k, run, b, i, i, t);
    NotNegative(h, run[i].sh, run[i].workers[t]);
  }

  lemma NotNegative(h: Hashing, sh: Shared, th: Thread)
    requires SharedOk(sh) && Stands(h, sh, th)
    ensures Distance(sh, th) >= 0
  {
  }

  /** A search can always go on. */
  lemma CanSearch(h: Hashing, k: Key, run: seq<State>, i: nat, t: Tid) returns (th': Thread)
    requires Run(h, k, run) && i < |run| && t in run[i].workers && IsSearching(run[i].workers[t].pc)
    ensures SearchStep(h, run[i].sh, run[i].workers[t], th')
  {
    InvRun(h, k, run, i);
    var sh, th := run[i].sh, run[i].workers[t];
    assert WorkerOk(sh, th);
    match th.pc
    case SearchLoad => th' := Begin(sh, th);
    case SearchRead =>
      assert LevelOk(sh.levels, th.level);
      var p := Scanned(h, sh, th.key, th.level, th.pos);
      th' := if At(sh, p) == Some(th.key) then th.(pc := SearchFound)
             else if th.pos + 1 < 2 * ASSOC_NUM then th.(pos := th.pos + 1)
             else th.(pc := SearchNext);
    case SearchNext =>
      assert LevelOk(sh.levels, th.level);
      th' := if th.level == MetaOf(sh, th).first then th.(pc := SearchCheck)
             else th.(level := sh.levels[th.level].up.value, pos := 0, pc := SearchRead);
    case SearchCheck => th' := if th.m == Current(sh) then th.(pc := SearchMissed) else Begin(sh, th);
  }
}
