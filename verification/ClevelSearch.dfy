/** A key that stays in the table is found by every search that completes, whatever is moved, appended or
    retired meanwhile. */
module ClevelSearch {
  import opened Options
  import opened ClevelMachine
  import opened ClevelChain

  predicate HasKey(sh: Shared, p: Place, k: Key) {
    IsPlace(sh, p) && At(sh, p) == Some(k)
  }

  /** The slot that a search looks at in place `pos` of a level holds the key. */
  ghost predicate Occurs(h: Hashing, sh: Shared, k: Key, level: nat, pos: nat) {
    && level < |sh.levels| && sh.levels[level].capacity >= 2 && pos < 2 * ASSOC_NUM
    && HasKey(sh, Scanned(h, sh, k, level, pos), k)
  }

  /** The key is in a slot that a search at `level` and `pos` has still to look at. */
  ghost predicate Ahead(h: Hashing, sh: Shared, k: Key, first: nat, level: nat, pos: nat) {
    exists l: nat, p: nat :: Occurs(h, sh, k, l, p) && l <= first && (l > level || (l == level && p >= pos))
  }

  /** The key is in the table, between the last level and the first. */
  ghost predicate Present(h: Hashing, sh: Shared, k: Key) {
    |sh.metas| > 0 && Ahead(h, sh, k, First(sh), Last(sh), 0)
  }

  // ---- What is known of the key ----

  ghost predicate Emptied(sh: Shared, k: Key, level: nat, bucket: nat, slot: nat) {
    forall b: nat, j: nat :: b < bucket || (b == bucket && j < slot) ==> !HasKey(sh, Place(level, b, j), k)
  }

  predicate IsMoving(pc: Pc) {
    pc.ReadTarget? || pc.CasTarget? || pc.ClearSource?
  }

  /** What the rehasher has done with is free of the key, and what it is about to clear it has copied. */
  ghost predicate RehasherKnows(h: Hashing, sh: Shared, k: Key, th: Thread) {
    && |sh.metas| > 0
    && Emptied(sh, k, Last(sh), th.bucket, if th.pc == ReadSource || IsMoving(th.pc) then th.slot else 0)
    && (IsMoving(th.pc) && HasKey(sh, Place(Last(sh), th.bucket, th.slot), k) ==> th.source == Some(k))
    && (th.pc == ClearSource && th.source == Some(k) ==> CanMove(h, sh, th) && HasKey(sh, TargetPlace(h, sh, th, k), k))
  }

  /** A search for the key that works with the metadata in force has the key ahead of it. */
  ghost predicate SearcherKnows(h: Hashing, sh: Shared, k: Key, th: Thread) {
    th.key == k ==>
      && th.pc != SearchMissed
      && (th.m < |sh.metas| && th.m == Current(sh) ==>
            && (th.pc == SearchRead ==> Ahead(h, sh, k, MetaOf(sh, th).first, th.level, th.pos))
            && (th.pc == SearchNext ==> Ahead(h, sh, k, MetaOf(sh, th).first, th.level + 1, 0))
            && th.pc != SearchCheck)
  }

  /** All searches know, but perhaps for those of the threads in `but`. */
  ghost predicate Knows(h: Hashing, k: Key, s: State, but: set<Tid>) {
    && Inv(s) && Present(h, s.sh, k) && RehasherKnows(h, s.sh, k, s.rehasher)
    && forall t :: t in s.workers && t !in but ==> SearcherKnows(h, s.sh, k, s.workers[t])
  }

  // ---- Steps that leave the key where it is ----

  ghost predicate SamePlaces(sh: Shared, sh': Shared, k: Key) {
    forall p :: HasKey(sh, p, k) <==> HasKey(sh', p, k)
  }

  ghost predicate KeepsPlaces(sh: Shared, sh': Shared, k: Key) {
    forall p :: HasKey(sh, p, k) ==> HasKey(sh', p, k)
  }

  lemma AheadStays(h: Hashing, sh: Shared, sh': Shared, k: Key, first: nat, first': nat, level: nat, pos: nat)
    requires Grows(sh, sh') && KeepsPlaces(sh, sh', k) && first <= first' && Ahead(h, sh, k, first, level, pos)
    ensures Ahead(h, sh', k, first', level, pos)
  {
    var l: nat, p: nat :| Occurs(h, sh, k, l, p) && l <= first && (l > level || (l == level && p >= pos));
    assert Scanned(h, sh', k, l, p) == Scanned(h, sh, k, l, p);
    assert Occurs(h, sh', k, l, p);
  }

  lemma SearcherStays(h: Hashing, sh: Shared, sh': Shared, k: Key, th: Thread)
    requires SearcherKnows(h, sh, k, th) && WorkerOk(sh, th) && Grows(sh, sh') && KeepsPlaces(sh, sh', k)
    ensures SearcherKnows(h, sh', k, th)
  {
    if th.key == k && th.m < |sh'.metas| && th.m == Current(sh') && th.pc in {SearchRead, SearchNext} {
      assert MetaOf(sh', th) == MetaOf(sh, th);
      var first := MetaOf(sh, th).first;
      if th.pc == SearchRead {
        AheadStays(h, sh, sh', k, first, first, th.level, th.pos);
      } else {
        AheadStays(h, sh, sh', k, first, first, th.level + 1, 0);
      }
    }
  }

  lemma RehasherKnowsStays(h: Hashing, sh: Shared, sh': Shared, k: Key, th: Thread)
    requires RehasherKnows(h, sh, k, th) && RehasherOk(sh, th) && Grows(sh, sh') && KeepsLast(sh, sh')
    requires SamePlaces(sh, sh', k)
    ensures RehasherKnows(h, sh', k, th)
  {
    if th.pc == ClearSource && th.source == Some(k) {
      assert MetaOf(sh', th) == MetaOf(sh, th);
      assert TargetPlace(h, sh', th, k) == TargetPlace(h, sh, th, k);
    }
  }

  lemma PutPlaces(sh: Shared, p: Place, v: Option<Key>, q: Place)
    requires IsPlace(sh, p)
    ensures IsPlace(Put(sh, p, v), q) <==> IsPlace(sh, q)
    ensures IsPlace(sh, q) ==> At(Put(sh, p, v), q) == if q == p then v else At(sh, q)
  {
  }

  lemma OtherWriteSame(sh: Shared, sh': Shared, k: Key)
    requires OtherWrite(sh, sh', k)
    ensures SamePlaces(sh, sh', k)
  {
    var p, v :| IsPlace(sh, p) && At(sh, p) != Some(k) && v != Some(k) && sh' == Put(sh, p, v);
    forall q ensures HasKey(sh, q, k) <==> HasKey(sh', q, k) {
      PutPlaces(sh, p, v, q);
    }
  }

  lemma ExpandSame(sh: Shared, th: Thread, sh': Shared, th': Thread, after: Pc, k: Key)
    requires ExpandStep(sh, th, sh', th', after)
    ensures SamePlaces(sh, sh', k)
  {
    if th.pc == ExpandAppend && sh' != sh {
      AppendedSame(sh, MetaOf(sh, th).first, th.newCapacity, k);
    }
  }

  lemma AppendedSame(sh: Shared, top: nat, capacity: nat, k: Key)
    requires top < |sh.levels|
    ensures SamePlaces(sh, Appended(sh, top, capacity), k)
  {
    var sh' := Appended(sh, top, capacity);
    forall p ensures HasKey(sh, p, k) <==> HasKey(sh', p, k) {
      if p.level < |sh.levels| {
        assert sh'.levels[p.level].buckets == sh.levels[p.level].buckets;
      } else if IsPlace(sh', p) {
        assert sh'.levels[p.level] == EmptyLevel(capacity);
      }
    }
  }

  // ---- A step of a search ----

  lemma ReadOn(h: Hashing, sh: Shared, k: Key, first: nat, level: nat, pos: nat)
    requires Ahead(h, sh, k, first, level, pos) && !Occurs(h, sh, k, level, pos)
    ensures Ahead(h, sh, k, first, level, pos + 1)
    ensures pos + 1 == 2 * ASSOC_NUM ==> Ahead(h, sh, k, first, level + 1, 0)
  {
    var l: nat, p: nat :| Occurs(h, sh, k, l, p) && l <= first && (l > level || (l == level && p >= pos));
    assert Occurs(h, sh, k, l, p);
  }

  lemma NothingAbove(h: Hashing, sh: Shared, k: Key, first: nat)
    ensures !Ahead(h, sh, k, first, first + 1, 0)
  {
  }

  lemma SearchStepKnows(h: Hashing, sh: Shared, k: Key, th: Thread, th': Thread)
    requires SharedOk(sh) && WorkerOk(sh, th) && Present(h, sh, k) && SearcherKnows(h, sh, k, th)
    requires IsSearching(th.pc) && SearchStep(h, sh, th, th')
    ensures SearcherKnows(h, sh, k, th')
  {
    if th.key == k && th.pc != SearchLoad && th.m == Current(sh) {
      var first := MetaOf(sh, th).first;
      if th.pc == SearchRead {
        if th'.pc != SearchFound {
          ReadOn(h, sh, k, first, th.level, th.pos);
        }
      } else if th.pc == SearchNext {
        NothingAbove(h, sh, k, first);
        assert LevelOk(sh.levels, th.level);
      }
    }
  }

  lemma WorkerSame(h: Hashing, sh: Shared, k: Key, th: Thread, sh': Shared, th': Thread)
    requires WorkerStep(h, sh, th, sh', th')
    ensures SamePlaces(sh, sh', k)
  {
    if IsExpanding(th.pc) {
      ExpandSame(sh, th, sh', th', Idle, k);
    }
  }

  lemma WorkerStepKnows(h: Hashing, sh: Shared, k: Key, th: Thread, sh': Shared, th': Thread)
    requires SharedOk(sh) && WorkerOk(sh, th) && Present(h, sh, k) && SearcherKnows(h, sh, k, th)
    requires WorkerStep(h, sh, th, sh', th')
    ensures SearcherKnows(h, sh', k, th')
  {
    if IsExpanding(th.pc) {
      ExpandKeeps(sh, th, sh', th', Idle);
    } else if IsSearching(th.pc) {
      SearchStepKnows(h, sh, k, th, th');
    }
  }

  lemma PresentStays(h: Hashing, sh: Shared, sh': Shared, k: Key)
    requires Present(h, sh, k) && Grows(sh, sh') && KeepsLast(sh, sh') && KeepsPlaces(sh, sh', k)
    ensures Present(h, sh', k)
  {
    AheadStays(h, sh, sh', k, First(sh), First(sh'), Last(sh), 0);
  }

  // ---- Steps of the rehasher ----

  lemma ReadsKnow(h: Hashing, sh: Shared, k: Key, th: Thread, sh': Shared, th': Thread)
    requires SharedOk(sh) && RehasherOk(sh, th) && RehasherKnows(h, sh, k, th) && RehashStep(h, sh, th, sh', th')
    requires th.pc in {Count, RehashLoad, ReadTarget, RetireReload}
    ensures sh' == sh && RehasherKnows(h, sh', k, th')
  {
  }

  lemma SourceKnows(h: Hashing, sh: Shared, k: Key, th: Thread, sh': Shared, th': Thread)
    requires SharedOk(sh) && RehasherOk(sh, th) && RehasherKnows(h, sh, k, th) && RehashStep(h, sh, th, sh', th')
    requires th.pc == ReadSource
    ensures sh' == sh && RehasherKnows(h, sh', k, th')
  {
    var last := Last(sh);
    assert LevelOk(sh.levels, last);
    if th.slot == ASSOC_NUM {
      forall b: nat, j: nat | b < th.bucket + 1 ensures !HasKey(sh, Place(last, b, j), k) {
        assert b < th.bucket || (b == th.bucket && j < th.slot) || !IsPlace(sh, Place(last, b, j));
      }
    } else {
      assert SourcePlace(sh, th) == Place(last, th.bucket, th.slot);
      forall b: nat, j: nat | (b < th.bucket || (b == th.bucket && j < th.slot + 1)) &&
          At(sh, SourcePlace(sh, th)).None?
        ensures !HasKey(sh, Place(last, b, j), k)
      {
        assert b < th.bucket || (b == th.bucket && j < th.slot) || Place(last, b, j) == SourcePlace(sh, th);
      }
    }
  }

  /** Copying the key adds a place for it above the last level. */
  lemma CasKnows(h: Hashing, sh: Shared, k: Key, th: Thread, sh': Shared, th': Thread)
    requires SharedOk(sh) && RehasherOk(sh, th) && RehasherKnows(h, sh, k, th) && RehashStep(h, sh, th, sh', th')
    requires th.pc == CasTarget
    ensures KeepsPlaces(sh, sh', k) && RehasherKnows(h, sh', k, th')
  {
    if sh' != sh {
      var p := TargetPlace(h, sh, th, th.source.value);
      forall q
        ensures HasKey(sh, q, k) ==> HasKey(sh', q, k)
        ensures q.level == Last(sh) && HasKey(sh', q, k) ==> HasKey(sh, q, k)
      {
        PutPlaces(sh, p, th.source, q);
      }
      if th.source == Some(k) {
        PutPlaces(sh, p, th.source, p);
        assert TargetPlace(h, sh', th', k) == p;
      }
    }
  }

  /** Where the rehasher has copied the key a search will still come by. */
  lemma CopyOccurs(h: Hashing, sh: Shared, k: Key, th: Thread)
    requires RehasherOk(sh, th) && RehasherKnows(h, sh, k, th) && th.pc == ClearSource && th.source == Some(k)
    ensures Occurs(h, sh, k, MetaOf(sh, th).first, if th.pos % 2 == 0 then th.pos / 2 else ASSOC_NUM + th.pos / 2)
  {
    var pos := if th.pos % 2 == 0 then th.pos / 2 else ASSOC_NUM + th.pos / 2;
    assert Scanned(h, sh, k, MetaOf(sh, th).first, pos) == TargetPlace(h, sh, th, k);
  }

  ghost predicate OnlyCleared(sh: Shared, sh': Shared, p: Place, k: Key) {
    && (forall q :: HasKey(sh', q, k) ==> HasKey(sh, q, k))
    && (forall q :: HasKey(sh, q, k) && q != p ==> HasKey(sh', q, k))
  }

  lemma ClearOnly(h: Hashing, sh: Shared, k: Key, th: Thread, sh': Shared, th': Thread)
    requires RehasherOk(sh, th) && RehashStep(h, sh, th, sh', th') && th.pc == ClearSource
    ensures OnlyCleared(sh, sh', Place(Last(sh), th.bucket, th.slot), k)
    ensures !HasKey(sh', Place(Last(sh), th.bucket, th.slot), k)
  {
    var p := SourcePlace(sh, th);
    forall q
      ensures HasKey(sh', q, k) ==> HasKey(sh, q, k)
      ensures HasKey(sh, q, k) && q != p ==> HasKey(sh', q, k)
    {
      PutPlaces(sh, p, None, q);
    }
    PutPlaces(sh, p, None, p);
  }

  /** Clearing the source takes nothing from a search: what it had ahead it still has, here or in the copy. */
  lemma AheadAfterClear(h: Hashing, sh: Shared, sh': Shared, k: Key, th: Thread, first: nat, level: nat, pos: nat)
    requires SharedOk(sh) && RehasherOk(sh, th) && RehasherKnows(h, sh, k, th) && th.pc == ClearSource
    requires OnlyCleared(sh, sh', Place(Last(sh), th.bucket, th.slot), k) && Grows(sh, sh')
    requires Ahead(h, sh, k, first, level, pos) && Last(sh) <= level && first == First(sh)
    ensures Ahead(h, sh', k, first, level, pos)
  {
    var l: nat, p: nat :| Occurs(h, sh, k, l, p) && l <= first && (l > level || (l == level && p >= pos));
    assert Scanned(h, sh', k, l, p) == Scanned(h, sh, k, l, p);
    if Occurs(h, sh', k, l, p) {
    } else {
      CopyOccurs(h, sh, k, th);
      var tl := MetaOf(sh, th).first;
      var tp := if th.pos % 2 == 0 then th.pos / 2 else ASSOC_NUM + th.pos / 2;
      assert Scanned(h, sh', k, tl, tp) == Scanned(h, sh, k, tl, tp);
      assert Occurs(h, sh', k, tl, tp);
      assert th.m < |sh.metas| - 1 ==> sh.metas[th.m].first <= First(sh);
    }
  }

  lemma ClearKnows(h: Hashing, sh: Shared, k: Key, th: Thread, sh': Shared, th': Thread)
    requires SharedOk(sh) && RehasherOk(sh, th) && RehasherKnows(h, sh, k, th) && RehashStep(h, sh, th, sh', th')
    requires th.pc == ClearSource
    ensures RehasherKnows(h, sh', k, th')
  {
    ClearOnly(h, sh, k, th, sh', th');
    var last := Last(sh);
    forall b: nat, j: nat | b < th.bucket || (b == th.bucket && j < th.slot + 1)
        ensures !HasKey(sh', Place(last, b, j), k) {
      assert b < th.bucket || (b == th.bucket && j < th.slot) || Place(last, b, j) == Place(last, th.bucket, th.slot);
    }
  }

  ghost predicate AheadKept(h: Hashing, sh: Shared, sh': Shared, k: Key) {
    && |sh.metas| > 0
    && forall level: nat, pos: nat :: Last(sh) <= level && Ahead(h, sh, k, First(sh), level, pos) ==>
        Ahead(h, sh', k, First(sh), level, pos)
  }

  lemma ClearKeepsAhead(h: Hashing, sh: Shared, sh': Shared, k: Key, th: Thread)
    requires SharedOk(sh) && RehasherOk(sh, th) && RehasherKnows(h, sh, k, th) && th.pc == ClearSource
    requires OnlyCleared(sh, sh', Place(Last(sh), th.bucket, th.slot), k) && Grows(sh, sh')
    ensures AheadKept(h, sh, sh', k)
  {
    forall level: nat, pos: nat | Last(sh) <= level && Ahead(h, sh, k, First(sh), level, pos)
      ensures Ahead(h, sh', k, First(sh), level, pos)
    {
      AheadAfterClear(h, sh, sh', k, th, First(sh), level, pos);
    }
  }

  lemma SearcherAfterClear(h: Hashing, sh: Shared, sh': Shared, k: Key, w: Thread)
    requires AheadKept(h, sh, sh', k) && sh'.metas == sh.metas && SearcherKnows(h, sh, k, w) && WorkerOk(sh, w)
    ensures SearcherKnows(h, sh', k, w)
  {
    if w.key == k && w.m < |sh.metas| && w.m == Current(sh) {
      if w.pc == SearchRead {
        assert Ahead(h, sh', k, First(sh), w.level, w.pos);
      } else if w.pc == SearchNext {
        assert Ahead(h, sh', k, First(sh), w.level + 1, 0);
      }
    }
  }

  /** When the last level is retired it is free of the key. */
  lemma RetireKnows(h: Hashing, sh: Shared, k: Key, th: Thread, sh': Shared, th': Thread)
    requires SharedOk(sh) && RehasherOk(sh, th) && RehasherKnows(h, sh, k, th) && Present(h, sh, k)
    requires th.pc == Retire && RehashStep(h, sh, th, sh', th')
    ensures SamePlaces(sh, sh', k) && RehasherKnows(h, sh', k, th') && Present(h, sh', k)
  {
    RetireOk(h, sh, th, sh', th');
    if sh' != sh {
      var last := Last(sh);
      assert LevelOk(sh.levels, last);
      var l: nat, p: nat :| Occurs(h, sh, k, l, p) && l <= First(sh) && (l > last || (l == last && p >= 0));
      var q := Scanned(h, sh, k, l, p);
      assert HasKey(sh, q, k) && (l == last ==> q.bucket < th.bucket);
      assert Scanned(h, sh', k, l, p) == q;
      assert Occurs(h, sh', k, l, p);
    }
  }

  // ---- All steps ----

  ghost predicate SearchersKnow(h: Hashing, sh: Shared, k: Key, workers: map<Tid, Thread>, but: set<Tid>) {
    forall t :: t in workers ==> WorkerOk(sh, workers[t]) && (t !in but ==> SearcherKnows(h, sh, k, workers[t]))
  }

  lemma SearchersStay(h: Hashing, sh: Shared, sh': Shared, k: Key, workers: map<Tid, Thread>, but: set<Tid>)
    requires SearchersKnow(h, sh, k, workers, but) && Grows(sh, sh') && KeepsPlaces(sh, sh', k)
    ensures SearchersKnow(h, sh', k, workers, but)
  {
    forall t | t in workers
      ensures WorkerOk(sh', workers[t]) && (t !in but ==> SearcherKnows(h, sh', k, workers[t]))
    {
      WorkerStays(sh, sh', workers[t]);
      if t !in but {
        SearcherStays(h, sh, sh', k, workers[t]);
      }
    }
  }

  lemma WorkerCase(h: Hashing, k: Key, s: State, s': State, but: set<Tid>, t: Tid, th': Thread)
    requires Knows(h, k, s, but) && t in s.workers && WorkerStep(h, s.sh, s.workers[t], s'.sh, th')
    requires s' == s.(sh := s'.sh, workers := s.workers[t := th'])
    ensures Present(h, s'.sh, k) && RehasherKnows(h, s'.sh, k, s'.rehasher)
    ensures SearchersKnow(h, s'.sh, k, s'.workers, but)
  {
    WorkerStepOk(h, s.sh, s.workers[t], s'.sh, th');
    WorkerSame(h, s.sh, k, s.workers[t], s'.sh, th');
    if t !in but {
      WorkerStepKnows(h, s.sh, k, s.workers[t], s'.sh, th');
    }
    SearchersStay(h, s.sh, s'.sh, k, s.workers, but);
    RehasherKnowsStays(h, s.sh, s'.sh, k, s.rehasher);
    PresentStays(h, s.sh, s'.sh, k);
  }

  lemma OtherCase(h: Hashing, k: Key, s: State, s': State, but: set<Tid>)
    requires Knows(h, k, s, but) && OtherWrite(s.sh, s'.sh, k) && s' == s.(sh := s'.sh)
    ensures Present(h, s'.sh, k) && RehasherKnows(h, s'.sh, k, s'.rehasher)
    ensures SearchersKnow(h, s'.sh, k, s'.workers, but)
  {
    OtherWriteSame(s.sh, s'.sh, k);
    var p, v :| IsPlace(s.sh, p) && At(s.sh, p) != Some(k) && v != Some(k) && s'.sh == Put(s.sh, p, v);
    PutOk(s.sh, p, v);
    SearchersStay(h, s.sh, s'.sh, k, s.workers, but);
    RehasherKnowsStays(h, s.sh, s'.sh, k, s.rehasher);
    PresentStays(h, s.sh, s'.sh, k);
  }

  /** An expansion of the rehasher's own keeps what it knows. */
  lemma ExpandKnows(h: Hashing, sh: Shared, k: Key, th: Thread, sh': Shared, th': Thread)
    requires SharedOk(sh) && RehasherOk(sh, th) && RehasherKnows(h, sh, k, th) && RehashStep(h, sh, th, sh', th')
    requires IsExpanding(th.pc)
    ensures SamePlaces(sh, sh', k) && KeepsLast(sh, sh') && Grows(sh, sh') && RehasherKnows(h, sh', k, th')
  {
    ExpandSame(sh, th, sh', th', RehashLoad, k);
    ExpandKeeps(sh, th, sh', th', RehashLoad);
    RehashExpandOk(h, sh, th, sh', th');
  }

  lemma ClearCase(h: Hashing, k: Key, s: State, s': State, but: set<Tid>)
    requires Knows(h, k, s, but) && RehashStep(h, s.sh, s.rehasher, s'.sh, s'.rehasher) && s.rehasher.pc == ClearSource
    requires s' == s.(sh := s'.sh, rehasher := s'.rehasher)
    ensures Present(h, s'.sh, k) && RehasherKnows(h, s'.sh, k, s'.rehasher)
    ensures SearchersKnow(h, s'.sh, k, s'.workers, but)
  {
    RehashWriteOk(h, s.sh, s.rehasher, s'.sh, s'.rehasher);
    ClearOnly(h, s.sh, k, s.rehasher, s'.sh, s'.rehasher);
    ClearKnows(h, s.sh, k, s.rehasher, s'.sh, s'.rehasher);
    ClearKeepsAhead(h, s.sh, s'.sh, k, s.rehasher);
    forall t | t in s.workers
      ensures WorkerOk(s'.sh, s.workers[t]) && (t !in but ==> SearcherKnows(h, s'.sh, k, s.workers[t]))
    {
      WorkerStays(s.sh, s'.sh, s.workers[t]);
      if t !in but {
        SearcherAfterClear(h, s.sh, s'.sh, k, s.workers[t]);
      }
    }
  }

  lemma MoveCase(h: Hashing, k: Key, s: State, s': State, but: set<Tid>)
    requires Knows(h, k, s, but) && RehashStep(h, s.sh, s.rehasher, s'.sh, s'.rehasher)
    requires s' == s.(sh := s'.sh, rehasher := s'.rehasher) && !IsExpanding(s.rehasher.pc)
    requires s.rehasher.pc != ClearSource
    ensures Present(h, s'.sh, k) && RehasherKnows(h, s'.sh, k, s'.rehasher)
    ensures SearchersKnow(h, s'.sh, k, s'.workers, but)
  {
    var th := s.rehasher;
    if th.pc == Retire {
      RetireOk(h, s.sh, th, s'.sh, s'.rehasher);
      RetireKnows(h, s.sh, k, th, s'.sh, s'.rehasher);
      SearchersStay(h, s.sh, s'.sh, k, s.workers, but);
    } else if th.pc == CasTarget {
      RehashWriteOk(h, s.sh, th, s'.sh, s'.rehasher);
      CasKnows(h, s.sh, k, th, s'.sh, s'.rehasher);
      SearchersStay(h, s.sh, s'.sh, k, s.workers, but);
      PresentStays(h, s.sh, s'.sh, k);
    } else if th.pc == ReadSource {
      SourceKnows(h, s.sh, k, th, s'.sh, s'.rehasher);
    } else {
      ReadsKnow(h, s.sh, k, th, s'.sh, s'.rehasher);
    }
  }

  lemma RehashCase(h: Hashing, k: Key, s: State, s': State, but: set<Tid>)
    requires Knows(h, k, s, but) && RehashStep(h, s.sh, s.rehasher, s'.sh, s'.rehasher)
    requires s' == s.(sh := s'.sh, rehasher := s'.rehasher)
    ensures Present(h, s'.sh, k) && RehasherKnows(h, s'.sh, k, s'.rehasher)
    ensures SearchersKnow(h, s'.sh, k, s'.workers, but)
  {
    if IsExpanding(s.rehasher.pc) {
      ExpandKnows(h, s.sh, k, s.rehasher, s'.sh, s'.rehasher);
      SearchersStay(h, s.sh, s'.sh, k, s.workers, but);
      PresentStays(h, s.sh, s'.sh, k);
    } else if s.rehasher.pc == ClearSource {
      ClearCase(h, k, s, s', but);
    } else {
      MoveCase(h, k, s, s', but);
    }
  }

  lemma KnowsStep(h: Hashing, k: Key, s: State, s': State, but: set<Tid>)
    requires Knows(h, k, s, but) && Next(h, k, s, s')
    ensures Knows(h, k, s', but)
  {
    InvStep(h, k, s, s');
    if t, th' :| t in s.workers && WorkerMoves(h, s, s', t, th') {
      WorkerCase(h, k, s, s', but, t, th');
    } else if RehashStep(h, s.sh, s.rehasher, s'.sh, s'.rehasher) && s' == s.(sh := s'.sh, rehasher := s'.rehasher) {
      RehashCase(h, k, s, s', but);
    } else {
      OtherCase(h, k, s, s', but);
    }
  }

  /** States of which each comes from the one before by a step. */
  ghost predicate Steps(h: Hashing, k: Key, run: seq<State>) {
    |run| > 0 && forall i: nat :: i + 1 < |run| ==> Stepped(h, k, run, i)
  }

  lemma {:induction false} KnowsFrom(h: Hashing, k: Key, run: seq<State>, n: nat, i: nat, but: set<Tid>)
    requires Steps(h, k, run) && n <= i < |run| && Knows(h, k, run[n], but)
    ensures Knows(h, k, run[i], but)
  {
    if n < i {
      KnowsFrom(h, k, run, n, i - 1, but);
      assert Stepped(h, k, run, i - 1);
      KnowsStep(h, k, run[i - 1], run[i], but);
    }
  }

  lemma KnowsRun(h: Hashing, k: Key, run: seq<State>, i: nat)
    requires Run(h, k, run) && i < |run| && Present(h, run[0].sh, k)
    ensures Knows(h, k, run[i], {})
  {
    InvRun(h, k, run, 0);
    KnowsFrom(h, k, run, 0, i, {});
  }

  // ---- What is found ----

  /** The key lies in a slot of one of its two buckets. */
  ghost predicate LiesAt(h: Hashing, sh: Shared, k: Key, p: Place) {
    && IsPlace(sh, p) && At(sh, p) == Some(k) && sh.levels[p.level].capacity >= 2
    && p.bucket in {FirstIndex(h, k, sh.levels[p.level].capacity), SecondIndex(h, k, sh.levels[p.level].capacity)}
  }

  /** From state `j` worker `t` goes from a search for the key to its end, and the key lies in its place. */
  ghost predicate SeenIn(h: Hashing, run: seq<State>, j: nat, t: Tid, k: Key) {
    && j + 1 < |run| && t in run[j].workers && run[j].workers[t].key == k && IsSearching(run[j].workers[t].pc)
    && t in run[j + 1].workers && run[j + 1].workers[t].pc == SearchFound
    && exists p :: LiesAt(h, run[j].sh, k, p)
  }

  lemma FoundStep(h: Hashing, k: Key, run: seq<State>, i: nat, t: Tid)
    requires Steps(h, k, run) && i + 1 < |run| && t in run[i + 1].workers && run[i + 1].workers[t].pc == SearchFound
    ensures t in run[i].workers && run[i].workers[t].key == run[i + 1].workers[t].key
    ensures run[i].workers[t].pc == SearchFound || SeenIn(h, run, i, t, run[i + 1].workers[t].key)
  {
    assert Stepped(h, k, run, i);
    var sh, th := run[i].sh, run[i].workers[t];
    if th.pc != SearchFound {
      assert LiesAt(h, sh, th.key, Scanned(h, sh, th.key, th.level, th.pos));
    }
  }

  /** A search that ends with its key found, and that was not under way in state `b`, has seen the key in one of its
      two buckets since then. */
  lemma {:induction false} FoundIsThere(h: Hashing, k: Key, run: seq<State>, b: nat, i: nat, t: Tid) returns (j: nat)
    requires Steps(h, k, run) && b <= i < |run| && t in run[b].workers && run[b].workers[t].pc == Idle
    requires t in run[i].workers && run[i].workers[t].pc == SearchFound
    ensures b <= j < i && SeenIn(h, run, j, t, run[i].workers[t].key)
  {
    FoundStep(h, k, run, i - 1, t);
    if SeenIn(h, run, i - 1, t, run[i].workers[t].key) {
      j := i - 1;
    } else {
      j := FoundIsThere(h, k, run, b, i - 1, t);
    }
  }

  /** A key that is in no slot while a search for it is under way is not found by it. */
  lemma NeverFoundAbsent(h: Hashing, k: Key, run: seq<State>, b: nat, i: nat, t: Tid)
    requires Steps(h, k, run) && b <= i < |run| && t in run[b].workers && run[b].workers[t].pc == Idle
    requires t in run[i].workers
    requires forall j, p :: b <= j < i ==> !HasKey(run[j].sh, p, run[i].workers[t].key)
    ensures run[i].workers[t].pc != SearchFound
  {
    if run[i].workers[t].pc == SearchFound {
      var j := FoundIsThere(h, k, run, b, i, t);
      var key := run[i].workers[t].key;
      var p :| LiesAt(h, run[j].sh, key, p);
      assert HasKey(run[j].sh, p, key);
    }
  }

  /** The key stays in the table, and no search for it ever ends without it; and a search for any key that ends with
      it has seen it in its place. */
  lemma SearchNeverMisses(h: Hashing, k: Key, run: seq<State>, i: nat)
    requires Run(h, k, run) && i < |run| && Present(h, run[0].sh, k)
    ensures Present(h, run[i].sh, k)
    ensures forall t :: t in run[i].workers && run[i].workers[t].key == k ==> run[i].workers[t].pc != SearchMissed
    ensures forall t :: t in run[i].workers && run[i].workers[t].pc == SearchFound ==>
              exists j: nat :: j < i && SeenIn(h, run, j, t, run[i].workers[t].key)
  {
    KnowsRun(h, k, run, i);
    WorkersStay(h, k, run, 0, i);
    forall t | t in run[i].workers && run[i].workers[t].pc == SearchFound
      ensures exists j: nat :: j < i && SeenIn(h, run, j, t, run[i].workers[t].key)
    {
      var j := FoundIsThere(h, k, run, 0, i, t);
    }
  }

  // ---- Keys that arrive while the table grows ----

  ghost predicate Absent(s: State, k: Key) {
    && (forall p :: !HasKey(s.sh, p, k))
    && (IsMoving(s.rehasher.pc) ==> s.rehasher.source != Some(k))
  }

  lemma PutAbsent(sh: Shared, p: Place, v: Option<Key>, k: Key)
    requires IsPlace(sh, p) && v != Some(k) && forall q :: !HasKey(sh, q, k)
    ensures forall q :: !HasKey(Put(sh, p, v), q, k)
  {
    forall q ensures !HasKey(Put(sh, p, v), q, k) {
      assert !HasKey(sh, q, k);
      PutPlaces(sh, p, v, q);
    }
  }

  lemma AbsentRehash(h: Hashing, sh: Shared, k: Key, th: Thread, sh': Shared, th': Thread)
    requires RehasherOk(sh, th) && RehashStep(h, sh, th, sh', th') && forall p :: !HasKey(sh, p, k)
    requires IsMoving(th.pc) ==> th.source != Some(k)
    ensures (forall p :: !HasKey(sh', p, k)) && (IsMoving(th'.pc) ==> th'.source != Some(k))
  {
    if IsExpanding(th.pc) {
      ExpandSame(sh, th, sh', th', RehashLoad, k);
    } else if th.pc == CasTarget || th.pc == ClearSource {
      if sh' != sh {
        var p := if th.pc == ClearSource then SourcePlace(sh, th) else TargetPlace(h, sh, th, th.source.value);
        PutAbsent(sh, p, if th.pc == ClearSource then None else th.source, k);
      }
    } else if th.pc == ReadSource && th'.pc == ReadTarget {
      assert !HasKey(sh, SourcePlace(sh, th), k);
    } else {
      assert sh'.levels == sh.levels;
      assert forall q :: HasKey(sh', q, k) <==> HasKey(sh, q, k);
    }
  }

  lemma AbsentStep(h: Hashing, k: Key, s: State, s': State)
    requires Inv(s) && Absent(s, k) && Next(h, k, s, s')
    ensures Absent(s', k)
  {
    if t, th' :| t in s.workers && WorkerMoves(h, s, s', t, th') {
      WorkerSame(h, s.sh, k, s.workers[t], s'.sh, th');
    } else if RehashStep(h, s.sh, s.rehasher, s'.sh, s'.rehasher) && s' == s.(sh := s'.sh, rehasher := s'.rehasher) {
      AbsentRehash(h, s.sh, k, s.rehasher, s'.sh, s'.rehasher);
    } else {
      OtherWriteSame(s.sh, s'.sh, k);
    }
  }

  lemma {:induction false} AbsentRun(h: Hashing, k: Key, run: seq<State>, i: nat)
    requires Run(h, k, run) && i < |run| && forall p :: !HasKey(run[0].sh, p, k)
    ensures Absent(run[i], k)
  {
    if i > 0 {
      AbsentRun(h, k, run, i - 1);
      InvRun(h, k, run, i - 1);
      assert Stepped(h, k, run, i - 1);
      AbsentStep(h, k, run[i - 1], run[i]);
    }
  }

  /** The rehasher has still to come to the place. */
  predicate Unpassed(sh: Shared, th: Thread, p: Place)
    requires |sh.metas| > 0
  {
    p.level == Last(sh) && p.bucket <= th.bucket ==>
      p.bucket == th.bucket && (IsMoving(th.pc) ==> th.slot < p.slot) && (th.pc == ReadSource ==> th.slot <= p.slot)
  }

  /** The key is put in an empty slot of one of its buckets, in a level that is in force. */
  ghost predicate Arrives(h: Hashing, k: Key, s: State, s': State, level: nat, pos: nat) {
    && |s.sh.metas| > 0 && Last(s.sh) <= level <= First(s.sh) && level < |s.sh.levels|
    && s.sh.levels[level].capacity >= 2 && pos < 2 * ASSOC_NUM
    && var p := Scanned(h, s.sh, k, level, pos);
       && IsPlace(s.sh, p) && At(s.sh, p).None? && Unpassed(s.sh, s.rehasher, p)
       && s' == s.(sh := Put(s.sh, p, Some(k)))
  }

  lemma ArrivalKnows(h: Hashing, k: Key, s: State, s': State, level: nat, pos: nat)
    requires Inv(s) && Absent(s, k) && Arrives(h, k, s, s', level, pos)
    ensures Knows(h, k, s', s.workers.Keys)
  {
    var p := Scanned(h, s.sh, k, level, pos);
    PutOk(s.sh, p, Some(k));
    RehasherStays(s.sh, s'.sh, s.rehasher);
    forall t | t in s.workers ensures WorkerOk(s'.sh, s.workers[t]) {
      WorkerStays(s.sh, s'.sh, s.workers[t]);
    }
    forall q ensures HasKey(s'.sh, q, k) <==> q == p {
      assert !HasKey(s.sh, q, k);
      PutPlaces(s.sh, p, Some(k), q);
    }
    assert Scanned(h, s'.sh, k, level, pos) == p;
    assert Occurs(h, s'.sh, k, level, pos);
    assert Ahead(h, s'.sh, k, First(s'.sh), Last(s'.sh), 0);
  }

  /** A key that arrives at any time of any run, in a slot that the rehasher has still to come to, stays in the
      table, and every search that is begun after it has arrived finds it. */
  lemma ArrivedNeverMissed(h: Hashing, k: Key, run: seq<State>, more: seq<State>, level: nat, pos: nat,
                           n: nat, i: nat, t: Tid)
    requires Run(h, k, run) && forall p :: !HasKey(run[0].sh, p, k)
    requires Steps(h, k, more) && Arrives(h, k, run[|run| - 1], more[0], level, pos)
    requires n <= i < |more| && t in more[n].workers && more[n].workers[t].pc == Idle
    ensures Present(h, more[i].sh, k)
    ensures t in more[i].workers && !(more[i].workers[t].key == k && more[i].workers[t].pc == SearchMissed)
    ensures more[i].workers[t].pc == SearchFound ==>
              exists j: nat :: n <= j < i && SeenIn(h, more, j, t, more[i].workers[t].key)
  {
    var s := run[|run| - 1];
    InvRun(h, k, run, |run| - 1);
    AbsentRun(h, k, run, |run| - 1);
    ArrivalKnows(h, k, s, more[0], level, pos);
    var but := s.workers.Keys;
    KnowsFrom(h, k, more, 0, n, but);
    assert Knows(h, k, more[n], but - {t});
    KnowsFrom(h, k, more, n, i, but - {t});
    WorkersStay(h, k, more, n, i);
    if more[i].workers[t].pc == SearchFound {
      var j := FoundIsThere(h, k, more, n, i, t);
    }
  }

  lemma {:induction false} WorkersStay(h: Hashing, k: Key, run: seq<State>, n: nat, i: nat)
    requires Steps(h, k, run) && n <= i < |run|
    ensures run[i].workers.Keys == run[n].workers.Keys
  {
    if n < i {
      WorkersStay(h, k, run, n, i - 1);
      assert Stepped(h, k, run, i - 1);
    }
  }
}
