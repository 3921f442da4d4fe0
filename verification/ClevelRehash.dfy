/** The rehasher at work alone: it empties the last level and retires it, whatever the hash functions are, unless a
    level has been appended that is not in force. */
module ClevelRehash {
  import opened Options
  import opened ClevelMachine
  import opened ClevelChain
  import opened ClevelSearch

  // ---- How many items a level has ----

  function CountIn(bucket: seq<Option<Key>>): nat {
    if bucket == [] then 0 else CountIn(bucket[..|bucket| - 1]) + if bucket[|bucket| - 1].Some? then 1 else 0
  }

  function CountAll(buckets: seq<seq<Option<Key>>>): nat {
    if buckets == [] then 0 else CountAll(buckets[..|buckets| - 1]) + CountIn(buckets[|buckets| - 1])
  }

  function One(v: Option<Key>): nat {
    if v.Some? then 1 else 0
  }

  lemma {:induction false} CountSet(bucket: seq<Option<Key>>, j: nat, v: Option<Key>)
    requires j < |bucket|
    ensures CountIn(bucket[j := v]) + One(bucket[j]) == CountIn(bucket) + One(v)
  {
    var last := |bucket| - 1;
    if j < last {
      assert bucket[j := v][..last] == bucket[..last][j := v];
      CountSet(bucket[..last], j, v);
    } else {
      assert bucket[j := v][..last] == bucket[..last];
    }
  }

  lemma {:induction false} CountChanged(buckets: seq<seq<Option<Key>>>, b: nat, bucket: seq<Option<Key>>)
    requires b < |buckets|
    ensures CountAll(buckets[b := bucket]) + CountIn(buckets[b]) == CountAll(buckets) + CountIn(bucket)
  {
    var last := |buckets| - 1;
    if b < last {
      assert buckets[b := bucket][..last] == buckets[..last][b := bucket];
      CountChanged(buckets[..last], b, bucket);
    } else {
      assert buckets[b := bucket][..last] == buckets[..last];
    }
  }

  lemma {:induction false} CountFew(bucket: seq<Option<Key>>)
    ensures CountIn(bucket) <= |bucket|
  {
    if bucket != [] {
      CountFew(bucket[..|bucket| - 1]);
    }
  }

  lemma {:induction false} CountAllFew(buckets: seq<seq<Option<Key>>>)
    requires forall b :: 0 <= b < |buckets| ==> |buckets[b]| == ASSOC_NUM
    ensures CountAll(buckets) <= ASSOC_NUM * |buckets|
  {
    if buckets != [] {
      CountAllFew(buckets[..|buckets| - 1]);
      CountFew(buckets[|buckets| - 1]);
    }
  }

  function Items(sh: Shared, l: nat): nat {
    if l < |sh.levels| then CountAll(sh.levels[l].buckets) else 0
  }

  lemma PutItems(sh: Shared, p: Place, v: Option<Key>, l: nat)
    requires IsPlace(sh, p)
    ensures l != p.level ==> Items(Put(sh, p, v), l) == Items(sh, l)
    ensures Items(Put(sh, p, v), p.level) + One(At(sh, p)) == Items(sh, p.level) + One(v)
  {
    var buckets := sh.levels[p.level].buckets;
    CountSet(buckets[p.bucket], p.slot, v);
    CountChanged(buckets, p.bucket, buckets[p.bucket][p.slot := v]);
  }

  // ---- Where the rehasher stands ----

  ghost predicate EmptyAt(sh: Shared, l: nat) {
    forall p {:trigger IsPlace(sh, p)} :: IsPlace(sh, p) && p.level == l ==> At(sh, p).None?
  }

  /** Nothing but the rehasher has been at work since it loaded the metadata, and no level stands above the first but
      one that it has appended itself. */
  ghost predicate Undisturbed(h: Hashing, sh: Shared, th: Thread) {
    && |sh.metas| > 0 && Last(sh) + 2 <= First(sh) < |sh.levels|
    && (th.pc !in {Count, RehashLoad} ==> th.m == Current(sh))
    && (if th.pc == ExpandPublish then First(sh) + 2 == |sh.levels| else First(sh) + 1 == |sh.levels|)
    && match th.pc
       case Count | RehashLoad | ReadSource | Retire => true
       case ReadTarget => HasSource(sh, th)
       case CasTarget =>
         HasSource(sh, th) && CanMove(h, sh, th) && At(sh, TargetPlace(h, sh, th, th.source.value)).None?
       case ClearSource => HasSource(sh, th)
       case ExpandUp => !EmptyAt(sh, First(sh))
       case ExpandAppend => !EmptyAt(sh, First(sh)) && th.newCapacity == 2 * sh.levels[First(sh)].capacity
       case ExpandPublish =>
         && !EmptyAt(sh, First(sh)) && EmptyAt(sh, First(sh) + 1)
         && th.newCapacity == 2 * sh.levels[First(sh)].capacity && sh.levels[First(sh)].up == Some(First(sh) + 1)
       case _ => false
  }

  ghost predicate HasSource(sh: Shared, th: Thread) {
    th.m < |sh.metas| && IsPlace(sh, SourcePlace(sh, th)) && At(sh, SourcePlace(sh, th)).Some?
  }

  // ---- How far it is from retiring the last level ----

  /** The steps left when all goes straight on. */
  function Straight(capacity: nat, th: Thread): int {
    var rest := (capacity - th.bucket) * 32;
    match th.pc
    case Count => rest + 2
    case RehashLoad => rest + 1
    case ReadSource => rest - th.slot
    case ClearSource => rest - th.slot
    case ReadTarget => rest - 5 - th.pos
    case CasTarget => rest - 13
    case ExpandUp => rest - 14
    case ExpandAppend => rest - 15
    case ExpandPublish => rest - 16
    case _ => 1
  }

  /** The items that are still to be moved. */
  function ToMove(sh: Shared, th: Thread): int
    requires |sh.metas| > 0
  {
    Items(sh, Last(sh)) - if th.pc == ClearSource then 1 else 0
  }

  ghost function Filled(sh: Shared): int
    requires |sh.metas| > 0
  {
    if EmptyAt(sh, First(sh)) then 0 else 1
  }

  /** Every item may make the table grow once, and then the rehasher begins with its bucket again. */
  ghost function Left(sh: Shared, th: Thread): int
    requires |sh.metas| > 0 && Last(sh) < |sh.levels|
  {
    var capacity := sh.levels[Last(sh)].capacity;
    (2 * ToMove(sh, th) + Filled(sh)) * (32 * capacity + 64) + Straight(capacity, th)
  }

  lemma StraightBounds(sh: Shared, th: Thread)
    requires RehasherOk(sh, th)
    ensures var capacity := sh.levels[Last(sh)].capacity; 0 < Straight(capacity, th) <= 32 * capacity + 2
  {
  }

  /** Fewer items to move, or the same number and an empty first level, make up for all else. */
  lemma FewerFirst(w: int, w': int, e: int, e': int, p: int, p': int, most: int)
    requires 0 <= e <= 1 && 0 <= e' <= 1 && 0 < p < most && 0 < p' < most
    requires w' < w || (w' == w && e' < e) || (w' == w && e' == e && p' < p)
    ensures (2 * w' + e') * most + p' < (2 * w + e) * most + p
  {
    if 2 * w' + e' < 2 * w + e {
      assert (2 * w' + e' + 1) * most <= (2 * w + e) * most;
      assert (2 * w' + e' + 1) * most == (2 * w' + e') * most + most;
    }
  }

  /** What one step of the rehasher does to the three numbers, as long as the last level stays. */
  ghost predicate Lower(sh: Shared, th: Thread, sh': Shared, th': Thread) {
    && |sh.metas| > 0 && |sh'.metas| > 0 && Last(sh) < |sh.levels| && Last(sh') == Last(sh) < |sh'.levels|
    && sh'.levels[Last(sh)].capacity == sh.levels[Last(sh)].capacity
    && (|| ToMove(sh', th') < ToMove(sh, th)
        || (ToMove(sh', th') == ToMove(sh, th) && Filled(sh') < Filled(sh))
        || (ToMove(sh', th') == ToMove(sh, th) && Filled(sh') == Filled(sh) &&
            Straight(sh.levels[Last(sh)].capacity, th') < Straight(sh.levels[Last(sh)].capacity, th)))
  }

  lemma ReadLower(h: Hashing, sh: Shared, th: Thread, sh': Shared, th': Thread)
    requires SharedOk(sh) && RehasherOk(sh, th) && Undisturbed(h, sh, th) && MoveStep(h, sh, th, sh', th')
    requires th.pc in {Count, RehashLoad, ReadSource}
    ensures Undisturbed(h, sh', th') && Lower(sh, th, sh', th')
  {
    assert LevelOk(sh.levels, Last(sh));
  }

  lemma TargetLower(h: Hashing, sh: Shared, th: Thread, sh': Shared, th': Thread)
    requires SharedOk(sh) && RehasherOk(sh, th) && Undisturbed(h, sh, th) && MoveStep(h, sh, th, sh', th')
    requires th.pc == ReadTarget
    ensures Undisturbed(h, sh', th') && Lower(sh, th, sh', th')
  {
    var p := TargetPlace(h, sh, th, th.source.value);
    assert p.level == First(sh) && IsPlace(sh, p);
  }

  lemma PutEmptyAt(sh: Shared, p: Place, v: Option<Key>, l: nat)
    requires IsPlace(sh, p) && l != p.level
    ensures EmptyAt(Put(sh, p, v), l) <==> EmptyAt(sh, l)
  {
    var sh' := Put(sh, p, v);
    forall q: Place | q.level == l && IsPlace(sh, q) ensures IsPlace(sh', q) && At(sh', q) == At(sh, q) {
      PutPlaces(sh, p, v, q);
    }
    forall q: Place | q.level == l && IsPlace(sh', q) ensures IsPlace(sh, q) && At(sh', q) == At(sh, q) {
      PutPlaces(sh, p, v, q);
    }
  }

  lemma CasLower(h: Hashing, sh: Shared, th: Thread, sh': Shared, th': Thread)
    requires SharedOk(sh) && RehasherOk(sh, th) && Undisturbed(h, sh, th) && MoveStep(h, sh, th, sh', th')
    requires th.pc == CasTarget
    ensures Undisturbed(h, sh', th') && Lower(sh, th, sh', th')
  {
    var p := TargetPlace(h, sh, th, th.source.value);
    PutItems(sh, p, th.source, Last(sh));
    PutPlaces(sh, p, th.source, SourcePlace(sh, th));
  }

  lemma ClearLower(h: Hashing, sh: Shared, th: Thread, sh': Shared, th': Thread)
    requires SharedOk(sh) && RehasherOk(sh, th) && Undisturbed(h, sh, th) && MoveStep(h, sh, th, sh', th')
    requires th.pc == ClearSource
    ensures Undisturbed(h, sh', th') && Lower(sh, th, sh', th')
  {
    var p := SourcePlace(sh, th);
    PutItems(sh, p, None, Last(sh));
    PutEmptyAt(sh, p, None, First(sh));
  }

  lemma AppendEmptyAt(sh: Shared, top: nat, capacity: nat, l: nat)
    requires top < |sh.levels| && l < |sh.levels|
    ensures EmptyAt(Appended(sh, top, capacity), l) <==> EmptyAt(sh, l)
    ensures EmptyAt(Appended(sh, top, capacity), |sh.levels|) && Items(Appended(sh, top, capacity), l) == Items(sh, l)
  {
    var sh' := Appended(sh, top, capacity);
    forall q: Place | q.level == l ensures IsPlace(sh', q) <==> IsPlace(sh, q) {
    }
    forall q: Place | q.level == l && IsPlace(sh, q) ensures At(sh', q) == At(sh, q) {
    }
  }

  lemma ExpandLower(h: Hashing, sh: Shared, th: Thread, sh': Shared, th': Thread)
    requires SharedOk(sh) && RehasherOk(sh, th) && Undisturbed(h, sh, th) && ExpandStep(sh, th, sh', th', RehashLoad)
    requires th.pc in {ExpandUp, ExpandAppend}
    ensures Undisturbed(h, sh', th') && Lower(sh, th, sh', th')
  {
    assert LevelOk(sh.levels, First(sh));
    if th.pc == ExpandAppend {
      AppendEmptyAt(sh, First(sh), th.newCapacity, First(sh));
      AppendEmptyAt(sh, First(sh), th.newCapacity, Last(sh));
    }
  }

  lemma PublishLower(h: Hashing, sh: Shared, th: Thread, sh': Shared, th': Thread)
    requires SharedOk(sh) && RehasherOk(sh, th) && Undisturbed(h, sh, th) && ExpandStep(sh, th, sh', th', RehashLoad)
    requires th.pc == ExpandPublish
    ensures Undisturbed(h, sh', th') && Lower(sh, th, sh', th')
  {
    assert LevelOk(sh.levels, First(sh));
    assert forall q :: IsPlace(sh', q) <==> IsPlace(sh, q);
  }

  lemma StepLower(h: Hashing, sh: Shared, th: Thread, sh': Shared, th': Thread)
    requires SharedOk(sh) && RehasherOk(sh, th) && Undisturbed(h, sh, th) && RehashStep(h, sh, th, sh', th')
    ensures |sh'.metas| > 0
    ensures if th.pc == Retire then Last(sh') == Last(sh) + 1 else Undisturbed(h, sh', th') && Lower(sh, th, sh', th')
  {
    if th.pc in {Count, RehashLoad, ReadSource} {
      ReadLower(h, sh, th, sh', th');
    } else if th.pc == ReadTarget {
      TargetLower(h, sh, th, sh', th');
    } else if th.pc == CasTarget {
      CasLower(h, sh, th, sh', th');
    } else if th.pc == ClearSource {
      ClearLower(h, sh, th, sh', th');
    } else if th.pc in {ExpandUp, ExpandAppend} {
      ExpandLower(h, sh, th, sh', th');
    } else if th.pc == ExpandPublish {
      PublishLower(h, sh, th, sh', th');
    } else {
      RetireOk(h, sh, th, sh', th');
    }
  }

  lemma LowerLeft(sh: Shared, th: Thread, sh': Shared, th': Thread, c: nat)
    requires Lower(sh, th, sh', th') && c == sh.levels[Last(sh)].capacity
    requires 0 < Straight(c, th) <= 32 * c + 2 && 0 < Straight(c, th') <= 32 * c + 2
    ensures Left(sh', th') < Left(sh, th)
  {
    FewerFirst(ToMove(sh, th), ToMove(sh', th'), Filled(sh), Filled(sh'), Straight(c, th), Straight(c, th'),
               32 * c + 64);
  }

  lemma LeftLower(h: Hashing, sh: Shared, th: Thread, sh': Shared, th': Thread)
    requires SharedOk(sh) && RehasherOk(sh, th) && Undisturbed(h, sh, th) && RehashStep(h, sh, th, sh', th')
    requires th.pc != Retire
    ensures |sh'.metas| > 0 && Last(sh') == Last(sh) < |sh'.levels| && Undisturbed(h, sh', th')
    ensures Left(sh', th') < Left(sh, th)
  {
    StepLower(h, sh, th, sh', th');
    assert RehasherOk(sh', th') by { RehashStepOk(h, sh, th, sh', th'); }
    StraightBounds(sh, th);
    StraightBounds(sh', th');
    LowerLeft(sh, th, sh', th', sh.levels[Last(sh)].capacity);
  }

  // ---- Whole runs ----

  ghost predicate RehashesIn(h: Hashing, run: seq<State>, j: nat) {
    && j + 1 < |run| && RehashStep(h, run[j].sh, run[j].rehasher, run[j + 1].sh, run[j + 1].rehasher)
    && run[j + 1] == run[j].(sh := run[j + 1].sh, rehasher := run[j + 1].rehasher)
  }

  /** From state `b` to state `i` only the rehasher takes steps. */
  ghost predicate RehashesAlone(h: Hashing, run: seq<State>, b: nat, i: nat) {
    b <= i < |run| && forall j: nat {:trigger RehashesIn(h, run, j)} :: b <= j < i ==> RehashesIn(h, run, j)
  }

  /** The last level has been retired in some state since `b`. */
  ghost predicate Retired(run: seq<State>, b: nat, i: nat) {
    exists j: nat :: b < j <= i < |run| && RetiresIn(run, j)
  }

  ghost predicate RetiresIn(run: seq<State>, j: nat) {
    && 0 < j < |run| && |run[j - 1].sh.metas| > 0 && |run[j].sh.metas| > 0
    && Last(run[j].sh) == Last(run[j - 1].sh) + 1
  }

  ghost predicate StillAt(h: Hashing, s: State, first: State, steps: int) {
    && |s.sh.metas| > 0 && |first.sh.metas| > 0 && Last(s.sh) == Last(first.sh) && Last(s.sh) < |s.sh.levels|
    && Last(first.sh) < |first.sh.levels| && Undisturbed(h, s.sh, s.rehasher)
    && Left(s.sh, s.rehasher) <= Left(first.sh, first.rehasher) - steps
  }

  lemma GoesOn(h: Hashing, k: Key, run: seq<State>, j: nat, first: State, steps: int)
    requires Run(h, k, run) && RehashesIn(h, run, j) && StillAt(h, run[j], first, steps)
    ensures RetiresIn(run, j + 1) || StillAt(h, run[j + 1], first, steps + 1)
  {
    InvRun(h, k, run, j);
    if run[j].rehasher.pc == Retire {
      StepLower(h, run[j].sh, run[j].rehasher, run[j + 1].sh, run[j + 1].rehasher);
    } else {
      LeftLower(h, run[j].sh, run[j].rehasher, run[j + 1].sh, run[j + 1].rehasher);
    }
  }

  lemma {:induction false} RetiredOrAt(h: Hashing, k: Key, run: seq<State>, b: nat, i: nat, j: nat)
    requires Run(h, k, run) && RehashesAlone(h, run, b, i) && b <= j <= i
    requires Undisturbed(h, run[b].sh, run[b].rehasher)
    ensures Retired(run, b, j) || StillAt(h, run[j], run[b], j - b)
  {
    if b < j {
      RetiredOrAt(h, k, run, b, i, j - 1);
      if Retired(run, b, j - 1) {
        var m: nat :| b < m <= j - 1 && RetiresIn(run, m);
      } else {
        assert RehashesIn(h, run, j - 1);
        GoesOn(h, k, run, j - 1, run[b], j - 1 - b);
        assert RetiresIn(run, j) || StillAt(h, run[j], run[b], j - b);
      }
    }
  }

  lemma LeftBounds(h: Hashing, sh: Shared, th: Thread)
    requires SharedOk(sh) && RehasherOk(sh, th) && Undisturbed(h, sh, th)
    ensures var c := sh.levels[Last(sh)].capacity; 0 < Left(sh, th) < (8 * c + 2) * (32 * c + 64)
  {
    var c := sh.levels[Last(sh)].capacity;
    StraightBounds(sh, th);
    assert LevelOk(sh.levels, Last(sh));
    CountAllFew(sh.levels[Last(sh)].buckets);
    SourceCounts(h, sh, th);
    Product(2 * ToMove(sh, th) + Filled(sh), 8 * c + 1, 32 * c + 64);
  }

  lemma SourceCounts(h: Hashing, sh: Shared, th: Thread)
    requires RehasherOk(sh, th) && Undisturbed(h, sh, th)
    ensures ToMove(sh, th) >= 0
  {
    if th.pc == ClearSource {
      PutItems(sh, SourcePlace(sh, th), None, Last(sh));
    }
  }

  lemma Product(n: nat, most: nat, m: nat)
    requires n <= most
    ensures 0 <= n * m <= most * m && (most + 1) * m == most * m + m
  {
  }

  /** In every run, from every moment at which no level is above the first and more than two are in force: if only the
      rehasher takes steps, it retires the last level after a number of steps that the size of this level tells,
      whatever the hash functions are and however often the table has to grow for it. */
  lemma LoneRetire(h: Hashing, k: Key, run: seq<State>, b: nat, i: nat)
    requires Run(h, k, run) && RehashesAlone(h, run, b, i) && Undisturbed(h, run[b].sh, run[b].rehasher)
    ensures Last(run[b].sh) < |run[b].sh.levels|
    ensures var c := run[b].sh.levels[Last(run[b].sh)].capacity;
            i - b >= (8 * c + 2) * (32 * c + 64) ==> Retired(run, b, i)
  {
    InvRun(h, k, run, b);
    LeftBounds(h, run[b].sh, run[b].rehasher);
    RetiredOrAt(h, k, run, b, i, i);
    InvRun(h, k, run, i);
    if StillAt(h, run[i], run[b], i - b) {
      LeftBounds(h, run[i].sh, run[i].rehasher);
    }
  }

  // ---- With a level that is not in force ----

  /** A level has been appended above the first one, by a thread that has not published it. */
  ghost predicate Unpublished(sh: Shared, th: Thread) {
    && |sh.metas| > 0 && First(sh) + 1 < |sh.levels|
    && (th.pc !in {Count, RehashLoad} ==> th.m == Current(sh))
    && (th.pc == ExpandPublish ==> th.newCapacity == sh.levels[First(sh)].capacity)
    && th.pc !in {ExpandLoad, ExpandAppend, ExpandReload}
  }

  lemma HelpStep(h: Hashing, sh: Shared, th: Thread, sh': Shared, th': Thread)
    requires SharedOk(sh) && RehasherOk(sh, th) && Unpublished(sh, th) && RehashStep(h, sh, th, sh', th')
    ensures Unpublished(sh', th') && First(sh') == First(sh)
  {
    assert LevelOk(sh.levels, First(sh));
    assert MetaOk(sh, sh.metas[Current(sh)]);
  }

  /** Helping does not help: when a level has been appended but not published, the rehasher alone, however long it
      works, never brings it into force. */
  lemma {:induction false} HelpKeepsFirst(h: Hashing, k: Key, run: seq<State>, b: nat, i: nat, j: nat)
    requires Run(h, k, run) && RehashesAlone(h, run, b, i) && b <= j <= i && Unpublished(run[b].sh, run[b].rehasher)
    ensures Unpublished(run[j].sh, run[j].rehasher) && First(run[j].sh) == First(run[b].sh)
  {
    if b < j {
      HelpKeepsFirst(h, k, run, b, i, j - 1);
      assert RehashesIn(h, run, j - 1);
      InvRun(h, k, run, j - 1);
      HelpStep(h, run[j - 1].sh, run[j - 1].rehasher, run[j].sh, run[j].rehasher);
    }
  }

  // ---- The rehasher has a next step ----

  lemma CanExpand(sh: Shared, th: Thread) returns (sh': Shared, th': Thread)
    requires SharedOk(sh) && RehasherOk(sh, th) && IsExpanding(th.pc)
    ensures ExpandStep(sh, th, sh', th', RehashLoad)
  {
    assert MetaOk(sh, sh.metas[th.m]);
    var top := MetaOf(sh, th).first;
    var cl := sh.levels[top];
    sh' := sh;
    match th.pc
    case ExpandUp =>
      th' := if cl.up.None? then th.(pc := ExpandAppend, newCapacity := cl.capacity * 2, target := top + 1)
             else th.(pc := ExpandHelp);
    case ExpandAppend =>
      sh' := if cl.up.None? then Appended(sh, top, th.newCapacity) else sh;
      th' := th.(pc := ExpandPublish);
    case ExpandHelp =>
      th' := if th.m == Current(sh) then th.(pc := ExpandPublish, newCapacity := cl.capacity, target := top)
             else th.(pc := RehashLoad);
    case ExpandPublish =>
      if cl.capacity < th.newCapacity {
        NextUp(sh, th);
      }
      var first := if cl.capacity >= th.newCapacity then top else cl.up.value;
      if th.m == Current(sh) {
        sh', th' := Published(sh, Meta(first, MetaOf(sh, th).last, true)), th.(pc := RehashLoad);
      } else {
        th' := th.(pc := ExpandReload);
      }
    case ExpandReload =>
      var m := sh.metas[|sh.metas| - 1];
      assert MetaOk(sh, m);
      th' := th.(m := |sh.metas| - 1,
                 pc := if sh.levels[m.first].capacity >= th.newCapacity && m.resizing
                       then RehashLoad else ExpandPublish);
  }

  lemma TargetIsPlace(h: Hashing, sh: Shared, th: Thread)
    requires SharedOk(sh) && RehasherOk(sh, th) && th.pc in {ReadTarget, CasTarget}
    ensures CanMove(h, sh, th)
  {
    assert MetaOk(sh, sh.metas[th.m]);
    assert LevelOk(sh.levels, MetaOf(sh, th).first);
  }

  lemma SourceIsPlace(sh: Shared, th: Thread)
    requires SharedOk(sh) && RehasherOk(sh, th) && th.pc in {ReadSource, ClearSource} && th.slot < ASSOC_NUM
    ensures th.m < |sh.metas| && IsPlace(sh, SourcePlace(sh, th))
  {
    assert LevelOk(sh.levels, Last(sh));
  }

  lemma CanMoveOn(h: Hashing, sh: Shared, th: Thread) returns (sh': Shared, th': Thread)
    requires SharedOk(sh) && RehasherOk(sh, th) && !IsExpanding(th.pc)
    ensures MoveStep(h, sh, th, sh', th')
  {
    sh' := sh;
    match th.pc
    case Count =>
      var m := sh.metas[|sh.metas| - 1];
      th' := if m.first == m.last + 1 then th else th.(pc := RehashLoad, m := |sh.metas| - 1);
    case RehashLoad => th' := th.(m := |sh.metas| - 1, slot := 0, pc := ReadSource);
    case ReadSource =>
      if th.slot == ASSOC_NUM {
        th' := th.(bucket := th.bucket + 1,
                   pc := if th.bucket + 1 == sh.levels[MetaOf(sh, th).last].capacity then Retire else Count);
      } else {
        SourceIsPlace(sh, th);
        var v := At(sh, SourcePlace(sh, th));
        th' := if v.None? then th.(slot := th.slot + 1) else th.(source := v, pos := 0, pc := ReadTarget);
      }
    case ReadTarget =>
      TargetIsPlace(h, sh, th);
      th' := if At(sh, TargetPlace(h, sh, th, th.source.value)).None? then th.(pc := CasTarget) else NextTarget(th);
    case CasTarget =>
      TargetIsPlace(h, sh, th);
      var p := TargetPlace(h, sh, th, th.source.value);
      if At(sh, p).None? {
        sh', th' := Put(sh, p, th.source), th.(pc := ClearSource);
      } else {
        th' := NextTarget(th);
      }
    case ClearSource =>
      SourceIsPlace(sh, th);
      sh', th' := Put(sh, SourcePlace(sh, th), None), th.(slot := th.slot + 1, pc := ReadSource);
    case Retire =>
      var mine := MetaOf(sh, th);
      assert LevelOk(sh.levels, mine.last) && MetaOk(sh, mine);
      if th.m == Current(sh) {
        sh' := Published(sh, Meta(mine.first, sh.levels[mine.last].up.value, mine.first - mine.last != 2));
        th' := th.(bucket := 0, pc := Count);
      } else {
        th' := th.(pc := RetireReload);
      }
    case RetireReload => th' := th.(m := |sh.metas| - 1, pc := Retire);
  }

  /** In every state of every run the rehasher can take a step. */
  lemma RehasherNotStuck(h: Hashing, k: Key, run: seq<State>, i: nat) returns (sh': Shared, th': Thread)
    requires Run(h, k, run) && i < |run|
    ensures RehashStep(h, run[i].sh, run[i].rehasher, sh', th')
  {
    InvRun(h, k, run, i);
    if IsExpanding(run[i].rehasher.pc) {
      sh', th' := CanExpand(run[i].sh, run[i].rehasher);
    } else {
      sh', th' := CanMoveOn(h, run[i].sh, run[i].rehasher);
    }
  }
}
