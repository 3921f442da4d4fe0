/** The published metadata always names a chain of at least two levels, each twice as large as the one below. */
module ClevelChain {
  import opened Options
  import opened ClevelMachine

  // ---- What holds of the shared state ----

  ghost predicate MetaOk(sh: Shared, m: Meta) {
    m.last < m.first < |sh.levels|
  }

  ghost predicate MetasOk(sh: Shared) {
    && |sh.metas| > 0
    && (forall i :: 0 <= i < |sh.metas| ==> MetaOk(sh, sh.metas[i]))
    && (forall i, j :: 0 <= i < j < |sh.metas| ==>
        sh.metas[i].first <= sh.metas[j].first && sh.metas[i].last <= sh.metas[j].last)
  }

  ghost predicate SharedOk(sh: Shared) {
    ChainOk(sh.levels) && MetasOk(sh)
  }

  function Last(sh: Shared): nat
    requires |sh.metas| > 0
  {
    sh.metas[|sh.metas| - 1].last
  }

  function First(sh: Shared): nat
    requires |sh.metas| > 0
  {
    sh.metas[|sh.metas| - 1].first
  }

  // ---- What a thread knows ----

  ghost predicate ExpandOk(sh: Shared, th: Thread) {
    match th.pc
    case ExpandLoad => true
    case ExpandUp => th.m < |sh.metas|
    case ExpandHelp => th.m < |sh.metas|
    case ExpandAppend =>
      && th.m < |sh.metas| && MetaOf(sh, th).first < |sh.levels|
      && th.target == MetaOf(sh, th).first + 1 && th.newCapacity == 2 * sh.levels[MetaOf(sh, th).first].capacity
    case ExpandPublish => th.m < |sh.metas| && th.target < |sh.levels| &&
        sh.levels[th.target].capacity == th.newCapacity
    case ExpandReload => th.m < |sh.metas| && th.target < |sh.levels| && sh.levels[th.target].capacity == th.newCapacity
    case _ => false
  }

  ghost predicate SearchOk(sh: Shared, th: Thread) {
    match th.pc
    case SearchLoad => true
    case SearchRead => th.m < |sh.metas| && MetaOf(sh, th).last <= th.level <= MetaOf(sh, th).first &&
        th.pos < 2 * ASSOC_NUM
    case SearchNext => th.m < |sh.metas| && MetaOf(sh, th).last <= th.level <= MetaOf(sh, th).first
    case SearchCheck => th.m < |sh.metas|
    case _ => false
  }

  ghost predicate WorkerOk(sh: Shared, th: Thread) {
    ExpandOk(sh, th) || SearchOk(sh, th) || th.pc in {Idle, SearchFound, SearchMissed}
  }

  /** The last level is the one in force, and at least two more levels stand above it. */
  ghost predicate Deep(sh: Shared, th: Thread) {
    && |sh.metas| > 0 && th.m < |sh.metas|
    && MetaOf(sh, th).last == Last(sh) && MetaOf(sh, th).last + 2 <= MetaOf(sh, th).first
  }

  ghost predicate RehasherOk(sh: Shared, th: Thread) {
    && |sh.metas| > 0 && Last(sh) < |sh.levels|
    && (th.pc != Count ==> Deep(sh, th))
    && (if th.pc in {Retire, RetireReload} then th.bucket == sh.levels[Last(sh)].capacity
        else th.bucket < sh.levels[Last(sh)].capacity)
    && if IsExpanding(th.pc) then ExpandOk(sh, th) && th.pc != ExpandLoad else MoverOk(th)
  }

  predicate MoverOk(th: Thread) {
    match th.pc
    case Count => true
    case RehashLoad => true
    case ReadSource => th.slot <= ASSOC_NUM
    case ReadTarget => th.slot < ASSOC_NUM && th.pos < 2 * ASSOC_NUM && th.source.Some?
    case CasTarget => th.slot < ASSOC_NUM && th.pos < 2 * ASSOC_NUM && th.source.Some?
    case ClearSource => th.slot < ASSOC_NUM && th.pos < 2 * ASSOC_NUM && th.source.Some?
    case Retire => true
    case RetireReload => true
    case _ => false
  }

  ghost predicate Inv(s: State) {
    && SharedOk(s.sh) && RehasherOk(s.sh, s.rehasher)
    && forall t :: t in s.workers ==> WorkerOk(s.sh, s.workers[t])
  }

  // ---- What every step keeps ----

  /** Levels and metadata are only added, and a level that has one above it keeps it. */
  ghost predicate Grows(sh: Shared, sh': Shared) {
    && sh.metas <= sh'.metas && |sh.levels| <= |sh'.levels|
    && (forall i :: 0 <= i < |sh.levels| ==> sh'.levels[i].capacity == sh.levels[i].capacity)
    && (forall i :: 0 <= i < |sh.levels| ==> sh.levels[i].up.Some? ==> sh'.levels[i].up == sh.levels[i].up)
  }

  /** A step of a worker: the last level in force stays. */
  ghost predicate KeepsLast(sh: Shared, sh': Shared) {
    |sh.metas| > 0 && |sh'.metas| > 0 && Last(sh') == Last(sh) && First(sh) <= First(sh')
  }

  lemma WorkerStays(sh: Shared, sh': Shared, th: Thread)
    requires WorkerOk(sh, th) && Grows(sh, sh')
    ensures WorkerOk(sh', th)
  {
    assert th.m < |sh.metas| ==> sh'.metas[th.m] == sh.metas[th.m];
  }

  lemma RehasherStays(sh: Shared, sh': Shared, th: Thread)
    requires RehasherOk(sh, th) && Grows(sh, sh') && KeepsLast(sh, sh')
    ensures RehasherOk(sh', th)
  {
    assert th.m < |sh.metas| ==> sh'.metas[th.m] == sh.metas[th.m];
  }

  /** Larger levels stand higher. */
  lemma {:induction false} CapacitiesGrow(levels: seq<Level>, i: nat, j: nat)
    requires ChainOk(levels) && i < j < |levels|
    ensures levels[i].capacity < levels[j].capacity
  {
    assert LevelOk(levels, j - 1) && LevelOk(levels, i);
    if i < j - 1 {
      CapacitiesGrow(levels, i, j - 1);
    }
  }

  lemma AppendedOk(sh: Shared, top: nat)
    requires SharedOk(sh) && top < |sh.levels| && sh.levels[top].up.None?
    ensures top + 1 == |sh.levels| && SharedOk(Appended(sh, top, 2 * sh.levels[top].capacity))
    ensures Grows(sh, Appended(sh, top, 2 * sh.levels[top].capacity))
  {
    assert LevelOk(sh.levels, top);
    var sh' := Appended(sh, top, 2 * sh.levels[top].capacity);
    forall i | 0 <= i < |sh'.levels| ensures LevelOk(sh'.levels, i) {
      if i < |sh.levels| {
        assert LevelOk(sh.levels, i);
      }
    }
    assert forall i :: 0 <= i < |sh.metas| ==> MetaOk(sh, sh.metas[i]);
  }

  lemma PublishedOk(sh: Shared, m: Meta)
    requires SharedOk(sh) && MetaOk(sh, m) && First(sh) <= m.first && Last(sh) <= m.last
    ensures SharedOk(Published(sh, m)) && Grows(sh, Published(sh, m))
    ensures First(Published(sh, m)) == m.first && Last(Published(sh, m)) == m.last
  {
    var sh' := Published(sh, m);
    forall i | 0 <= i < |sh'.metas| ensures MetaOk(sh', sh'.metas[i]) {
      assert i < |sh.metas| ==> sh'.metas[i] == sh.metas[i] && MetaOk(sh, sh.metas[i]);
    }
    forall i, j | 0 <= i < j < |sh'.metas|
      ensures sh'.metas[i].first <= sh'.metas[j].first && sh'.metas[i].last <= sh'.metas[j].last
    {
      assert sh'.metas[i] == sh.metas[i];
      assert i < |sh.metas| - 1 ==> sh.metas[i].first <= First(sh) && sh.metas[i].last <= Last(sh);
      assert j < |sh.metas| ==> sh'.metas[j] == sh.metas[j];
    }
  }

  /** The level an expander publishes is there: it is first, or the next one up. */
  lemma NextUp(sh: Shared, th: Thread)
    requires SharedOk(sh) && ExpandOk(sh, th) && th.pc == ExpandPublish
    requires MetaOf(sh, th).first < |sh.levels| && sh.levels[MetaOf(sh, th).first].capacity < th.newCapacity
    ensures sh.levels[MetaOf(sh, th).first].up == Some(MetaOf(sh, th).first + 1)
    ensures MetaOf(sh, th).first + 1 < |sh.levels|
  {
    var top := MetaOf(sh, th).first;
    if th.target < top {
      CapacitiesGrow(sh.levels, th.target, top);
    }
    assert LevelOk(sh.levels, top);
  }

  lemma AppendStepOk(sh: Shared, th: Thread, sh': Shared, th': Thread, after: Pc)
    requires SharedOk(sh) && ExpandOk(sh, th) && th.pc == ExpandAppend && ExpandStep(sh, th, sh', th', after)
    ensures SharedOk(sh') && Grows(sh, sh') && KeepsLast(sh, sh') && ExpandOk(sh', th')
  {
    var top := MetaOf(sh, th).first;
    assert LevelOk(sh.levels, top);
    if sh.levels[top].up.None? {
      AppendedOk(sh, top);
    }
  }

  lemma PublishStepOk(sh: Shared, th: Thread, sh': Shared, th': Thread, after: Pc)
    requires SharedOk(sh) && ExpandOk(sh, th) && th.pc == ExpandPublish && ExpandStep(sh, th, sh', th', after)
    ensures SharedOk(sh') && Grows(sh, sh') && KeepsLast(sh, sh') && (th'.pc == after || ExpandOk(sh', th'))
  {
    assert MetaOk(sh, sh.metas[th.m]);
    if th.m == Current(sh) {
      if sh.levels[MetaOf(sh, th).first].capacity < th.newCapacity {
        NextUp(sh, th);
      }
      PublishedOk(sh, sh'.metas[|sh.metas|]);
    }
  }

  lemma ExpandStepOk(sh: Shared, th: Thread, sh': Shared, th': Thread, after: Pc)
    requires SharedOk(sh) && ExpandOk(sh, th) && ExpandStep(sh, th, sh', th', after)
    ensures SharedOk(sh') && Grows(sh, sh') && KeepsLast(sh, sh') && (th'.pc == after || ExpandOk(sh', th'))
  {
    if th.pc == ExpandAppend {
      AppendStepOk(sh, th, sh', th', after);
    } else if th.pc == ExpandPublish {
      PublishStepOk(sh, th, sh', th', after);
    } else if th.pc != ExpandLoad {
      assert MetaOk(sh, sh.metas[th.m]);
    }
  }

  /** An expander changes nothing else of a thread, and takes over only the metadata in force. */
  lemma ExpandKeeps(sh: Shared, th: Thread, sh': Shared, th': Thread, after: Pc)
    requires ExpandStep(sh, th, sh', th', after)
    ensures th' == th.(pc := th'.pc, m := th'.m, newCapacity := th'.newCapacity, target := th'.target)
    ensures th.m < |sh.metas| ==> th'.m == th.m || th'.m == |sh.metas| - 1
    ensures th'.pc == after || (IsExpanding(th'.pc) && th'.pc != ExpandLoad)
  {
  }

  lemma PutOk(sh: Shared, p: Place, v: Option<Key>)
    requires SharedOk(sh) && IsPlace(sh, p)
    ensures SharedOk(Put(sh, p, v)) && Grows(sh, Put(sh, p, v)) && KeepsLast(sh, Put(sh, p, v))
  {
    var sh' := Put(sh, p, v);
    forall i | 0 <= i < |sh'.levels| ensures LevelOk(sh'.levels, i) {
      assert LevelOk(sh.levels, i);
      assert i + 1 < |sh.levels| ==> sh'.levels[i + 1].capacity == sh.levels[i + 1].capacity;
    }
    assert forall i :: 0 <= i < |sh.metas| ==> MetaOk(sh, sh.metas[i]);
  }

  lemma WorkerStepOk(h: Hashing, sh: Shared, th: Thread, sh': Shared, th': Thread)
    requires SharedOk(sh) && WorkerOk(sh, th) && WorkerStep(h, sh, th, sh', th')
    ensures SharedOk(sh') && Grows(sh, sh') && KeepsLast(sh, sh') && WorkerOk(sh', th')
  {
    if IsExpanding(th.pc) {
      ExpandStepOk(sh, th, sh', th', Idle);
    } else {
      assert th.m < |sh.metas| ==> MetaOk(sh, sh.metas[th.m]);
      assert MetaOk(sh, sh.metas[|sh.metas| - 1]);
      if th.pc == SearchNext {
        assert LevelOk(sh.levels, th.level);
      }
    }
  }

  /** The retired level is the last in force, and two levels or more remain. */
  lemma RetireOk(h: Hashing, sh: Shared, th: Thread, sh': Shared, th': Thread)
    requires SharedOk(sh) && RehasherOk(sh, th) && th.pc == Retire && RehashStep(h, sh, th, sh', th')
    ensures SharedOk(sh') && Grows(sh, sh') && RehasherOk(sh', th')
    ensures sh' == sh || (sh'.levels == sh.levels && Last(sh') == Last(sh) + 1 && First(sh') == First(sh))
  {
    assert MetaOk(sh, sh.metas[th.m]);
    assert LevelOk(sh.levels, MetaOf(sh, th).last) && LevelOk(sh.levels, MetaOf(sh, th).last + 1);
    if th.m == Current(sh) {
      PublishedOk(sh, sh'.metas[|sh.metas|]);
    }
  }

  lemma RehashReadOk(h: Hashing, sh: Shared, th: Thread, sh': Shared, th': Thread)
    requires SharedOk(sh) && RehasherOk(sh, th) && RehashStep(h, sh, th, sh', th')
    requires th.pc in {Count, RehashLoad, ReadSource, ReadTarget, RetireReload}
    ensures sh' == sh && RehasherOk(sh', th')
  {
    assert MetaOk(sh, sh.metas[|sh.metas| - 1]);
    assert th.m < |sh.metas| - 1 ==> sh.metas[th.m].first <= First(sh);
  }

  lemma RehashWriteOk(h: Hashing, sh: Shared, th: Thread, sh': Shared, th': Thread)
    requires SharedOk(sh) && RehasherOk(sh, th) && RehashStep(h, sh, th, sh', th') && th.pc in {CasTarget, ClearSource}
    ensures SharedOk(sh') && Grows(sh, sh') && KeepsLast(sh, sh') && RehasherOk(sh', th')
  {
    if th.pc == ClearSource {
      PutOk(sh, SourcePlace(sh, th), None);
    } else if sh' != sh {
      PutOk(sh, TargetPlace(h, sh, th, th.source.value), th.source);
    }
  }

  lemma RehashExpandOk(h: Hashing, sh: Shared, th: Thread, sh': Shared, th': Thread)
    requires SharedOk(sh) && RehasherOk(sh, th) && RehashStep(h, sh, th, sh', th') && IsExpanding(th.pc)
    ensures SharedOk(sh') && Grows(sh, sh') && KeepsLast(sh, sh') && RehasherOk(sh', th')
  {
    ExpandStepOk(sh, th, sh', th', RehashLoad);
    ExpandKeeps(sh, th, sh', th', RehashLoad);
    assert th.m < |sh.metas| - 1 ==> sh.metas[th.m].first <= First(sh);
    assert sh'.metas[th'.m] == sh.metas[th'.m];
  }

  lemma RehashStepOk(h: Hashing, sh: Shared, th: Thread, sh': Shared, th': Thread)
    requires SharedOk(sh) && RehasherOk(sh, th) && RehashStep(h, sh, th, sh', th')
    ensures SharedOk(sh') && Grows(sh, sh') && RehasherOk(sh', th')
  {
    if IsExpanding(th.pc) {
      RehashExpandOk(h, sh, th, sh', th');
    } else if th.pc == Retire {
      RetireOk(h, sh, th, sh', th');
    } else if th.pc in {CasTarget, ClearSource} {
      RehashWriteOk(h, sh, th, sh', th');
    } else {
      RehashReadOk(h, sh, th, sh', th');
    }
  }

  lemma InvStep(h: Hashing, k: Key, s: State, s': State)
    requires Inv(s) && Next(h, k, s, s')
    ensures Inv(s') && Grows(s.sh, s'.sh)
  {
    if t, th' :| t in s.workers && WorkerMoves(h, s, s', t, th') {
      WorkerStepOk(h, s.sh, s.workers[t], s'.sh, th');
      RehasherStays(s.sh, s'.sh, s.rehasher);
    } else if RehashStep(h, s.sh, s.rehasher, s'.sh, s'.rehasher) && s' == s.(sh := s'.sh, rehasher := s'.rehasher) {
      RehashStepOk(h, s.sh, s.rehasher, s'.sh, s'.rehasher);
    } else {
      var p, v :| IsPlace(s.sh, p) && At(s.sh, p) != Some(k) && v != Some(k) && s'.sh == Put(s.sh, p, v);
      PutOk(s.sh, p, v);
      RehasherStays(s.sh, s'.sh, s.rehasher);
    }
    forall t | t in s'.workers && s'.workers[t] == s.workers[t] ensures WorkerOk(s'.sh, s'.workers[t]) {
      WorkerStays(s.sh, s'.sh, s.workers[t]);
    }
  }

  lemma {:induction false} InvRun(h: Hashing, k: Key, run: seq<State>, i: nat)
    requires Run(h, k, run) && i < |run|
    ensures Inv(run[i])
  {
    if i > 0 {
      InvRun(h, k, run, i - 1);
      assert Stepped(h, k, run, i - 1);
      InvStep(h, k, run[i - 1], run[i]);
    } else {
      assert LevelOk(run[0].sh.levels, Last(run[0].sh));
    }
  }

  // ---- The chain ----

  /** From `level` the `up` pointers lead to `first` in that many steps, through ever doubled capacities. */
  ghost predicate LeadsUp(levels: seq<Level>, level: nat, first: nat, steps: nat)
    decreases steps
  {
    && level < |levels| && first < |levels|
    && if steps == 0 then level == first
       else levels[level].up.Some?
            && LeadsUp(levels, levels[level].up.value, first, steps - 1)
            && levels[levels[level].up.value].capacity == 2 * levels[level].capacity
  }

  lemma {:induction false} ChainLeadsUp(levels: seq<Level>, level: nat, first: nat)
    requires ChainOk(levels) && level <= first < |levels|
    ensures LeadsUp(levels, level, first, first - level)
    decreases first - level
  {
    if level < first {
      assert LevelOk(levels, level);
      ChainLeadsUp(levels, level + 1, first);
    }
  }

  /** In every reachable state, the metadata in force, and all that was in force before, names a chain from
      its last level up to its first, of at least two levels. */
  lemma ChainAlways(h: Hashing, k: Key, run: seq<State>, i: nat, m: nat)
    requires Run(h, k, run) && i < |run| && m < |run[i].sh.metas|
    ensures var meta := run[i].sh.metas[m];
            meta.last < meta.first && LeadsUp(run[i].sh.levels, meta.last, meta.first, meta.first - meta.last)
  {
    InvRun(h, k, run, i);
    var sh := run[i].sh;
    assert MetaOk(sh, sh.metas[m]);
    ChainLeadsUp(sh.levels, sh.metas[m].last, sh.metas[m].first);
  }

  /** Over a whole run `up` is set at most once, capacities never change, and metadata is never unpublished. */
  lemma {:induction false} UpOnce(h: Hashing, k: Key, run: seq<State>, i: nat, j: nat)
    requires Run(h, k, run) && i <= j < |run|
    ensures Grows(run[i].sh, run[j].sh)
  {
    if i < j {
      UpOnce(h, k, run, i, j - 1);
      InvRun(h, k, run, j - 1);
      assert Stepped(h, k, run, j - 1);
      InvStep(h, k, run[j - 1], run[j]);
      GrowsOn(run[i].sh, run[j - 1].sh, run[j].sh);
    }
  }

  lemma GrowsOn(a: Shared, b: Shared, c: Shared)
    requires Grows(a, b) && Grows(b, c)
    ensures Grows(a, c)
  {
  }
}
