/** Level hashing with one thread: two levels, two candidate buckets of four slots in each, displacement
    within a level, movement from bottom to top, and growth by a new top. */
module LevelHash {
  import opened Options

  type Key = int
  type Val = int

  datatype Item = Item(key: Key, val: Val)

  const ASSOC_NUM: nat := 4

  type Bucket = seq<Option<Item>>

  datatype Place = Place(level: nat, bucket: nat, slot: nat)

  // ---- What is stored ----

  function One(v: Option<Item>, x: Item): nat {
    if v == Some(x) then 1 else 0
  }

  /** How often an item is stored in a bucket, and in a level. */
  function InBucket(b: Bucket, x: Item): nat {
    if b == [] then 0 else InBucket(b[..|b| - 1], x) + One(b[|b| - 1], x)
  }

  function InLevel(buckets: seq<Bucket>, x: Item): nat {
    if buckets == [] then 0 else InLevel(buckets[..|buckets| - 1], x) + InBucket(buckets[|buckets| - 1], x)
  }

  lemma {:induction false} PutInBucket(b: Bucket, j: nat, v: Option<Item>, x: Item)
    requires j < |b|
    ensures InBucket(b[j := v], x) + One(b[j], x) == InBucket(b, x) + One(v, x)
  {
    var n := |b| - 1;
    if j < n {
      PutInBucket(b[..n], j, v, x);
      assert b[j := v][..n] == b[..n][j := v];
    } else {
      assert b[j := v][..n] == b[..n];
    }
  }

  lemma {:induction false} PutBucket(buckets: seq<Bucket>, i: nat, b: Bucket, x: Item)
    requires i < |buckets|
    ensures InLevel(buckets[i := b], x) + InBucket(buckets[i], x) == InLevel(buckets, x) + InBucket(b, x)
  {
    var n := |buckets| - 1;
    if i < n {
      PutBucket(buckets[..n], i, b, x);
      assert buckets[i := b][..n] == buckets[..n][i := b];
    } else {
      assert buckets[i := b][..n] == buckets[..n];
    }
  }

  lemma {:induction false} SlotInBucket(b: Bucket, j: nat, x: Item)
    requires j < |b| && b[j] == Some(x)
    ensures InBucket(b, x) > 0
  {
    if j < |b| - 1 {
      SlotInBucket(b[..|b| - 1], j, x);
    }
  }

  lemma {:induction false} BucketInLevel(buckets: seq<Bucket>, i: nat, x: Item)
    requires i < |buckets| && InBucket(buckets[i], x) > 0
    ensures InLevel(buckets, x) > 0
  {
    if i < |buckets| - 1 {
      BucketInLevel(buckets[..|buckets| - 1], i, x);
    }
  }

  lemma {:induction false} SlotOf(b: Bucket, x: Item) returns (j: nat)
    requires InBucket(b, x) > 0
    ensures j < |b| && b[j] == Some(x)
  {
    var n := |b| - 1;
    if InBucket(b[..n], x) > 0 {
      j := SlotOf(b[..n], x);
    } else {
      j := n;
    }
  }

  lemma {:induction false} BucketOf(buckets: seq<Bucket>, x: Item) returns (i: nat)
    requires InLevel(buckets, x) > 0
    ensures i < |buckets| && InBucket(buckets[i], x) > 0
  {
    var n := |buckets| - 1;
    if InLevel(buckets[..n], x) > 0 {
      i := BucketOf(buckets[..n], x);
    } else {
      i := n;
    }
  }

  /** What has no slot in use stores nothing. */
  lemma NothingInEmpty(buckets: seq<Bucket>, x: Item)
    requires forall i, j :: 0 <= i < |buckets| && 0 <= j < |buckets[i]| ==> buckets[i][j] == None
    ensures InLevel(buckets, x) == 0
  {
    if InLevel(buckets, x) > 0 {
      var i := BucketOf(buckets, x);
      var j := SlotOf(buckets[i], x);
    }
  }

  // ---- The two levels ----

  datatype Table = Table(levels: seq<seq<Bucket>>)

  predicate IsPlace(t: Table, p: Place) {
    p.level < |t.levels| && p.bucket < |t.levels[p.level]| && p.slot < |t.levels[p.level][p.bucket]|
  }

  function At(t: Table, p: Place): Option<Item>
    requires IsPlace(t, p)
  {
    t.levels[p.level][p.bucket][p.slot]
  }

  function Put(t: Table, p: Place, v: Option<Item>): Table
    requires IsPlace(t, p)
  {
    Table(t.levels[p.level := t.levels[p.level][p.bucket := t.levels[p.level][p.bucket][p.slot := v]]])
  }

  /** How often an item is stored in the table. */
  function Count(t: Table, x: Item): nat
    requires |t.levels| == 2
  {
    InLevel(t.levels[0], x) + InLevel(t.levels[1], x)
  }

  lemma PutCount(t: Table, p: Place, v: Option<Item>, x: Item)
    requires |t.levels| == 2 && IsPlace(t, p)
    ensures Count(Put(t, p, v), x) + One(At(t, p), x) == Count(t, x) + One(v, x)
  {
    var buckets := t.levels[p.level];
    PutInBucket(buckets[p.bucket], p.slot, v, x);
    PutBucket(buckets, p.bucket, buckets[p.bucket][p.slot := v], x);
  }

  /** The same items are stored, each as often. */
  ghost predicate Same(t: Table, t': Table)
    requires |t.levels| == |t'.levels| == 2
  {
    forall x :: Count(t', x) == Count(t, x)
  }

  /** One item more, or one copy more of it. */
  ghost predicate OneMore(t: Table, t': Table, item: Item)
    requires |t.levels| == |t'.levels| == 2
  {
    forall x :: Count(t', x) == Count(t, x) + if x == item then 1 else 0
  }

  /** One copy of `was` has become one of `now`. */
  ghost predicate Exchanged(t: Table, t': Table, was: Item, now: Item)
    requires |t.levels| == |t'.levels| == 2
  {
    forall x :: Count(t', x) + (if x == was then 1 else 0) == Count(t, x) + (if x == now then 1 else 0)
  }

  lemma PutAt(t: Table, p: Place, v: Option<Item>, q: Place)
    requires IsPlace(t, p)
    ensures IsPlace(Put(t, p, v), q) <==> IsPlace(t, q)
    ensures IsPlace(t, q) ==> At(Put(t, p, v), q) == if q == p then v else At(t, q)
  {
  }

  // ---- Where items belong ----

  datatype Hashing = Hashing(first: Key -> nat, second: Key -> nat)

  function FirstIndex(h: Hashing, k: Key, capacity: nat): (i: nat)
    requires capacity >= 2
    ensures i < capacity / 2
  {
    h.first(k) % (capacity / 2)
  }

  function SecondIndex(h: Hashing, k: Key, capacity: nat): (i: nat)
    requires capacity >= 2
    ensures capacity / 2 <= i < capacity
  {
    h.second(k) % (capacity / 2) + capacity / 2
  }

  ghost predicate Shaped(t: Table) {
    && |t.levels| == 2 && |t.levels[1]| >= 2 && |t.levels[0]| == 2 * |t.levels[1]|
    && (forall i, b :: 0 <= i < 2 && 0 <= b < |t.levels[i]| ==> |t.levels[i][b]| == ASSOC_NUM)
  }

  predicate Candidate(h: Hashing, t: Table, k: Key, p: Place) {
    && p.level < |t.levels| && |t.levels[p.level]| >= 2
    && (p.bucket == FirstIndex(h, k, |t.levels[p.level]|) || p.bucket == SecondIndex(h, k, |t.levels[p.level]|))
  }

  /** Every item lies in one of its two buckets of its level. */
  ghost predicate Placed(h: Hashing, t: Table) {
    forall p :: IsPlace(t, p) && At(t, p).Some? ==> Candidate(h, t, At(t, p).value.key, p)
  }

  ghost predicate Ok(h: Hashing, t: Table) {
    Shaped(t) && Placed(h, t)
  }

  ghost predicate HasKey(t: Table, k: Key)
    requires |t.levels| == 2
  {
    exists x :: Count(t, x) > 0 && x.key == k
  }

  lemma StoredSomewhere(t: Table, x: Item) returns (p: Place)
    requires Shaped(t) && Count(t, x) > 0
    ensures IsPlace(t, p) && At(t, p) == Some(x)
  {
    var level := if InLevel(t.levels[0], x) > 0 then 0 else 1;
    var b := BucketOf(t.levels[level], x);
    var j := SlotOf(t.levels[level][b], x);
    p := Place(level, b, j);
  }

  lemma IsStored(t: Table, p: Place, x: Item)
    requires |t.levels| == 2 && IsPlace(t, p) && At(t, p) == Some(x)
    ensures Count(t, x) > 0
  {
    SlotInBucket(t.levels[p.level][p.bucket], p.slot, x);
    BucketInLevel(t.levels[p.level], p.bucket, x);
  }

  /** Putting an item in one of its buckets keeps the table in order. */
  lemma PutOk(h: Hashing, t: Table, p: Place, v: Option<Item>)
    requires Ok(h, t) && IsPlace(t, p) && (v.Some? ==> Candidate(h, t, v.value.key, p))
    ensures Ok(h, Put(t, p, v))
  {
    var t' := Put(t, p, v);
    forall q | IsPlace(t', q) && At(t', q).Some? ensures Candidate(h, t', At(t', q).value.key, q) {
      PutAt(t, p, v, q);
    }
  }

  // ---- Moves ----

  /** Filling an empty slot adds the item. */
  lemma FillAdds(h: Hashing, t: Table, p: Place, item: Item)
    requires Ok(h, t) && IsPlace(t, p) && At(t, p).None? && Candidate(h, t, item.key, p)
    ensures Ok(h, Put(t, p, Some(item))) && OneMore(t, Put(t, p, Some(item)), item)
  {
    PutOk(h, t, p, Some(item));
    forall x ensures Count(Put(t, p, Some(item)), x) == Count(t, x) + if x == item then 1 else 0 {
      PutCount(t, p, Some(item), x);
    }
  }

  /** Copying an item to an empty slot of one of its buckets and clearing the old one changes nothing. */
  lemma MoveKeeps(h: Hashing, t: Table, p: Place, q: Place, copied: Table, moved: Table)
    requires Ok(h, t) && IsPlace(t, p) && IsPlace(t, q) && p != q
    requires At(t, p).Some? && At(t, q).None? && Candidate(h, t, At(t, p).value.key, q)
    requires copied == Put(t, q, At(t, p)) && IsPlace(copied, p) && moved == Put(copied, p, None)
    ensures Ok(h, moved) && Same(t, moved) && IsPlace(moved, p) && At(moved, p).None?
  {
    PutOk(h, t, q, At(t, p));
    PutAt(t, q, At(t, p), p);
    PutOk(h, copied, p, None);
    PutAt(copied, p, None, p);
    forall x ensures Count(moved, x) == Count(t, x) {
      PutCount(t, q, At(t, p), x);
      PutCount(copied, p, None, x);
    }
  }

  ghost predicate FullBucket(t: Table, level: nat, b: nat) {
    && level < |t.levels| && b < |t.levels[level]|
    && forall j :: 0 <= j < |t.levels[level][b]| ==> t.levels[level][b][j].Some?
  }

  /** The other bucket of an item that lies in bucket `idx` of a level. */
  function Other(h: Hashing, k: Key, capacity: nat, idx: nat): nat
    requires capacity >= 2
  {
    if FirstIndex(h, k, capacity) == idx then SecondIndex(h, k, capacity) else FirstIndex(h, k, capacity)
  }

  /** No item of the bucket can go to its other bucket. */
  ghost predicate Stuck(h: Hashing, t: Table, level: nat, idx: nat)
    requires Shaped(t) && level < 2 && idx < |t.levels[level]|
  {
    forall j :: 0 <= j < ASSOC_NUM && t.levels[level][idx][j].Some? ==>
      FullBucket(t, level, Other(h, t.levels[level][idx][j].value.key, |t.levels[level]|, idx))
  }

  /** No item of a bottom bucket can go to the top. */
  ghost predicate StuckBelow(h: Hashing, t: Table, idx: nat)
    requires Shaped(t) && idx < |t.levels[1]|
  {
    forall j :: 0 <= j < ASSOC_NUM && t.levels[1][idx][j].Some? ==> NoEmpty(h, t, 0, t.levels[1][idx][j].value.key)
  }

  ghost predicate NoEmpty(h: Hashing, t: Table, level: nat, k: Key)
    requires Shaped(t) && level < 2
  {
    && FullBucket(t, level, FirstIndex(h, k, |t.levels[level]|))
    && FullBucket(t, level, SecondIndex(h, k, |t.levels[level]|))
  }

  /** No slot for the key, at any level, not even by moving one item. */
  ghost predicate NoRoom(h: Hashing, t: Table, k: Key, grown: bool)
    requires Shaped(t)
  {
    && (forall level :: 0 <= level < 2 ==> NoRoomAt(h, t, k, level))
    && (grown ==> StuckBelow(h, t, FirstIndex(h, k, |t.levels[1]|)))
    && (grown ==> StuckBelow(h, t, SecondIndex(h, k, |t.levels[1]|)))
  }

  ghost predicate NoRoomAt(h: Hashing, t: Table, k: Key, level: nat)
    requires Shaped(t) && level < 2
  {
    && NoEmpty(h, t, level, k)
    && Stuck(h, t, level, FirstIndex(h, k, |t.levels[level]|))
    && Stuck(h, t, level, SecondIndex(h, k, |t.levels[level]|))
  }

  /** The slots of the two buckets that come before this one, taken by turns, are in use. */
  ghost predicate ByTurns(h: Hashing, t: Table, level: nat, k: Key, b: nat, slot: nat)
    requires Shaped(t) && level < 2
  {
    var f, s := FirstIndex(h, k, |t.levels[level]|), SecondIndex(h, k, |t.levels[level]|);
    && slot < ASSOC_NUM
    && (forall j :: 0 <= j < slot ==> t.levels[level][f][j].Some? && t.levels[level][s][j].Some?)
    && (b == s ==> t.levels[level][f][slot].Some?)
  }

  /** An empty slot in the two buckets of a level, taken by turns. */
  method FindEmpty(h: Hashing, t: Table, level: nat, key: Key) returns (r: Option<Place>)
    requires Ok(h, t) && level < 2
    ensures r.Some? ==> IsPlace(t, r.value) && At(t, r.value).None? && r.value.level == level
    ensures r.Some? ==> Candidate(h, t, key, r.value)
    ensures r.None? <==> NoEmpty(h, t, level, key)
    ensures r.Some? ==> ByTurns(h, t, level, key, r.value.bucket, r.value.slot)
  {
    var f, s := FirstIndex(h, key, |t.levels[level]|), SecondIndex(h, key, |t.levels[level]|);
    for j := 0 to ASSOC_NUM
      invariant forall i :: 0 <= i < j ==> t.levels[level][f][i].Some? && t.levels[level][s][i].Some?
    {
      if t.levels[level][f][j].None? {
        return Some(Place(level, f, j));
      }
      if t.levels[level][s][j].None? {
        return Some(Place(level, s, j));
      }
    }
    return None;
  }

  // ---- Growing ----

  /** The keys of a bucket, and of a level, in the order of their slots. */
  function KeysOf(b: Bucket): seq<Key> {
    if b == [] then [] else KeysOf(b[..|b| - 1]) + KeyOf(b[|b| - 1])
  }

  function KeyOf(v: Option<Item>): seq<Key> {
    if v.Some? then [v.value.key] else []
  }

  function Listed(buckets: seq<Bucket>): seq<Key> {
    if buckets == [] then [] else Listed(buckets[..|buckets| - 1]) + KeysOf(buckets[|buckets| - 1])
  }

  /** How many keys every bucket of an empty level gets when each key in turn goes to the less loaded of its
      two buckets, the first of them if they are even; none if both are full for some key. */
  function Balance(h: Hashing, keys: seq<Key>, capacity: nat): (loads: Option<seq<nat>>)
    requires capacity >= 2
    ensures loads.Some? ==> |loads.value| == capacity && forall b :: 0 <= b < capacity ==> loads.value[b] <= ASSOC_NUM
  {
    if keys == [] then Some(seq(capacity, _ => 0))
    else
      var before := Balance(h, keys[..|keys| - 1], capacity);
      if before.None? then None else LoadMore(h, before.value, keys[|keys| - 1])
  }

  function LoadMore(h: Hashing, loads: seq<nat>, k: Key): (more: Option<seq<nat>>)
    requires |loads| >= 2
  {
    Heavier(loads, FirstIndex(h, k, |loads|), SecondIndex(h, k, |loads|))
  }

  function Heavier(loads: seq<nat>, f: nat, s: nat): Option<seq<nat>>
    requires f < |loads| && s < |loads|
  {
    var b := if loads[f] <= loads[s] then f else s;
    if loads[b] < ASSOC_NUM then Some(loads[b := loads[b] + 1]) else None
  }

  /** A key that finds both its buckets full settles it, whatever comes after. */
  lemma {:induction false} BalanceFails(h: Hashing, keys: seq<Key>, n: nat, capacity: nat)
    requires capacity >= 2 && n <= |keys| && Balance(h, keys[..n], capacity).None?
    ensures Balance(h, keys, capacity).None?
  {
    if n == |keys| {
      assert keys[..n] == keys;
    } else {
      var before := keys[..|keys| - 1];
      assert before[..n] == keys[..n];
      BalanceFails(h, before, n, capacity);
    }
  }

  /** The keys of the first buckets and of the first slots of the next are the first keys. */
  lemma {:induction false} ListedFirst(buckets: seq<Bucket>, b: nat)
    requires b <= |buckets|
    ensures Listed(buckets[..b]) <= Listed(buckets)
  {
    if b < |buckets| {
      ListedFirst(buckets[..|buckets| - 1], b);
      assert buckets[..|buckets| - 1][..b] == buckets[..b];
    } else {
      assert buckets[..b] == buckets;
    }
  }

  lemma {:induction false} KeysFirst(b: Bucket, i: nat)
    requires i <= |b|
    ensures KeysOf(b[..i]) <= KeysOf(b)
  {
    if i < |b| {
      KeysFirst(b[..|b| - 1], i);
      assert b[..|b| - 1][..i] == b[..i];
    } else {
      assert b[..i] == b;
    }
  }

  function KeysBefore(buckets: seq<Bucket>, b: nat, i: nat): seq<Key>
    requires b < |buckets| && i <= |buckets[b]|
  {
    Listed(buckets[..b]) + KeysOf(buckets[b][..i])
  }

  lemma KeysBeforeNext(buckets: seq<Bucket>, b: nat, i: nat)
    requires b < |buckets| && i < |buckets[b]|
    ensures KeysBefore(buckets, b, i + 1) == KeysBefore(buckets, b, i) + KeyOf(buckets[b][i])
  {
    assert buckets[b][..i + 1][..i] == buckets[b][..i];
  }

  lemma KeysBeforeAll(buckets: seq<Bucket>, b: nat)
    requires b < |buckets|
    ensures KeysBefore(buckets, b, 0) == Listed(buckets[..b])
    ensures KeysBefore(buckets, b, |buckets[b]|) == Listed(buckets[..b + 1])
  {
    assert buckets[..b + 1][..b] == buckets[..b] && buckets[b][..|buckets[b]|] == buckets[b];
  }

  /** The slots in use of every bucket are the first ones, as many as its load. */
  ghost predicate Loaded(buckets: seq<Bucket>, loads: seq<nat>) {
    && |buckets| == |loads|
    && forall b, j :: 0 <= b < |buckets| && 0 <= j < |buckets[b]| ==> (buckets[b][j].Some? <==> j < loads[b])
  }

  /** The empty slot that the turns come to is that of the less loaded bucket. */
  lemma LessLoaded(h: Hashing, t: Table, loads: seq<nat>, item: Item, q: Place)
    requires Ok(h, t) && Loaded(t.levels[0], loads) && IsPlace(t, q) && q.level == 0 && At(t, q).None?
    requires Candidate(h, t, item.key, q) && ByTurns(h, t, 0, item.key, q.bucket, q.slot)
    ensures LoadMore(h, loads, item.key).Some?
    ensures Loaded(Put(t, q, Some(item)).levels[0], LoadMore(h, loads, item.key).value)
  {
    var f, s := FirstIndex(h, item.key, |t.levels[0]|), SecondIndex(h, item.key, |t.levels[0]|);
    assert q.slot == loads[q.bucket] by {
      if q.slot > 0 {
        assert t.levels[0][q.bucket][q.slot - 1].Some?;
      }
    }
    if q.bucket == f {
      assert q.slot <= loads[s] by {
        if q.slot > 0 {
          assert t.levels[0][s][q.slot - 1].Some?;
        }
      }
    }
  }

  /** When both buckets are full, there is none to put the key in. */
  lemma NoneLessLoaded(h: Hashing, t: Table, loads: seq<nat>, k: Key)
    requires Ok(h, t) && Loaded(t.levels[0], loads) && NoEmpty(h, t, 0, k)
    ensures LoadMore(h, loads, k).None?
  {
    var f, s := FirstIndex(h, k, |t.levels[0]|), SecondIndex(h, k, |t.levels[0]|);
    assert t.levels[0][f][ASSOC_NUM - 1].Some? && t.levels[0][s][ASSOC_NUM - 1].Some?;
  }

  /** All items of the bottom find room in a new top twice as large as the old one. */
  ghost predicate CanGrow(h: Hashing, t: Table)
    requires Shaped(t)
  {
    Balance(h, Listed(t.levels[1]), 2 * |t.levels[0]|).Some?
  }

  /** The table with a new top being filled, and the old bottom being emptied. */
  ghost predicate Growing(h: Hashing, t: Table, grown: Table, bottom: seq<Bucket>, b: nat, i: nat)
    requires Shaped(t)
  {
    && Ok(h, grown) && grown.levels[1] == t.levels[0]
    && |bottom| == |t.levels[1]| && (forall c :: 0 <= c < |bottom| ==> |bottom[c]| == ASSOC_NUM)
    && (forall c, j :: 0 <= c < |bottom| && 0 <= j < ASSOC_NUM && (c < b || (c == b && j < i)) ==> bottom[c][j].None?)
    && (forall c, j :: 0 <= c < |bottom| && 0 <= j < ASSOC_NUM && (c > b || (c == b && j >= i)) ==>
        bottom[c][j] == t.levels[1][c][j])
    && (forall x :: Count(grown, x) + InLevel(bottom, x) == Count(t, x))
  }

  lemma GrowStep(h: Hashing, t: Table, grown: Table, bottom: seq<Bucket>, b: nat, i: nat, q: Place)
    requires Shaped(t) && Growing(h, t, grown, bottom, b, i) && b < |bottom| && i < ASSOC_NUM && bottom[b][i].Some?
    requires IsPlace(grown, q) && q.level == 0 && At(grown, q).None? && Candidate(h, grown, bottom[b][i].value.key, q)
    ensures Growing(h, t, Put(grown, q, bottom[b][i]), bottom[b := bottom[b][i := None]], b, i + 1)
  {
    var v := bottom[b][i];
    FillAdds(h, grown, q, v.value);
    forall x ensures Count(Put(grown, q, v), x) + InLevel(bottom[b := bottom[b][i := None]], x) == Count(t, x) {
      PutInBucket(bottom[b], i, None, x);
      PutBucket(bottom, b, bottom[b][i := None], x);
    }
  }

  /** What is in the new top so far is what goes there when every key takes the less loaded bucket. */
  ghost predicate Balancing(h: Hashing, t: Table, grown: Table, keys: seq<Key>) {
    && |t.levels| == |grown.levels| == 2 && |grown.levels[0]| == 2 * |t.levels[0]| >= 2
    && var loads := Balance(h, keys, |grown.levels[0]|); loads.Some? && Loaded(grown.levels[0], loads.value)
  }

  lemma BalanceStep(h: Hashing, t: Table, grown: Table, keys: seq<Key>, item: Item, q: Place)
    requires Ok(h, grown) && Balancing(h, t, grown, keys) && IsPlace(grown, q) && q.level == 0 && At(grown, q).None?
    requires Candidate(h, grown, item.key, q) && ByTurns(h, grown, 0, item.key, q.bucket, q.slot)
    ensures Balancing(h, t, Put(grown, q, Some(item)), keys + [item.key])
  {
    LessLoaded(h, grown, Balance(h, keys, |grown.levels[0]|).value, item, q);
    assert (keys + [item.key])[..|keys|] == keys;
  }

  lemma BalanceStuck(h: Hashing, t: Table, grown: Table, b: nat, i: nat, item: Item)
    requires Shaped(t) && b < |t.levels[1]| && i < ASSOC_NUM && t.levels[1][b][i] == Some(item)
    requires Ok(h, grown) && Balancing(h, t, grown, KeysBefore(t.levels[1], b, i)) && NoEmpty(h, grown, 0, item.key)
    ensures !CanGrow(h, t)
  {
    var bottom, capacity := t.levels[1], |grown.levels[0]|;
    var keys := KeysBefore(bottom, b, i);
    NoneLessLoaded(h, grown, Balance(h, keys, capacity).value, item.key);
    KeysBeforeNext(bottom, b, i);
    var more := KeysBefore(bottom, b, i + 1);
    assert more == keys + [item.key] && more[..|keys|] == keys;
    assert Balance(h, more, capacity).None?;
    KeysFirst(bottom[b], i + 1);
    KeysBeforeAll(bottom, b);
    ListedFirst(bottom, b + 1);
    assert bottom[b][..ASSOC_NUM] == bottom[b];
    assert more <= Listed(bottom);
    assert Listed(bottom)[..|more|] == more;
    BalanceFails(h, Listed(bottom), |more|, capacity);
  }

  /** The rehashing has come to slot `i` of bottom bucket `b`. */
  ghost predicate Rehashing(h: Hashing, t: Table, grown: Table, bottom: seq<Bucket>, b: nat, i: nat)
    requires Shaped(t) && b < |t.levels[1]| && i <= ASSOC_NUM
  {
    Growing(h, t, grown, bottom, b, i) && Balancing(h, t, grown, KeysBefore(t.levels[1], b, i))
  }

  lemma RehashStep(h: Hashing, t: Table, grown: Table, bottom: seq<Bucket>, b: nat, i: nat, q: Place)
    requires Shaped(t) && b < |t.levels[1]| && i < ASSOC_NUM && Rehashing(h, t, grown, bottom, b, i)
    requires bottom[b][i].Some?
    requires IsPlace(grown, q) && q.level == 0 && At(grown, q).None? && Candidate(h, grown, bottom[b][i].value.key, q)
    requires ByTurns(h, grown, 0, bottom[b][i].value.key, q.bucket, q.slot)
    ensures Rehashing(h, t, Put(grown, q, bottom[b][i]), bottom[b := bottom[b][i := None]], b, i + 1)
  {
    GrowStep(h, t, grown, bottom, b, i, q);
    KeysBeforeNext(t.levels[1], b, i);
    BalanceStep(h, t, grown, KeysBefore(t.levels[1], b, i), bottom[b][i].value, q);
  }

  lemma RehashSkip(h: Hashing, t: Table, grown: Table, bottom: seq<Bucket>, b: nat, i: nat)
    requires Shaped(t) && b < |t.levels[1]| && i < ASSOC_NUM && Rehashing(h, t, grown, bottom, b, i)
    requires bottom[b][i].None?
    ensures Rehashing(h, t, grown, bottom, b, i + 1)
  {
    KeysBeforeNext(t.levels[1], b, i);
    assert KeysBefore(t.levels[1], b, i + 1) == KeysBefore(t.levels[1], b, i);
  }

  /** A new top twice as large, with all items of the old bottom in it; the old top is the bottom now. */
  method Grow(h: Hashing, t: Table) returns (r: Option<Table>)
    requires Ok(h, t)
    ensures r.Some? ==> Ok(h, r.value) && Same(t, r.value)
    ensures r.Some? ==> r.value.levels[1] == t.levels[0] && |r.value.levels[0]| == 2 * |t.levels[0]|
    ensures r.Some? <==> CanGrow(h, t)
  {
    var empty: Bucket := [None, None, None, None];
    var grown := Table([seq(2 * |t.levels[0]|, _ => empty), t.levels[0]]);
    var bottom := t.levels[1];
    StartGrowing(h, t, grown);
    for b := 0 to |bottom|
      invariant Growing(h, t, grown, bottom, b, 0) && Balancing(h, t, grown, Listed(t.levels[1][..b]))
    {
      KeysBeforeAll(t.levels[1], b);
      for i := 0 to ASSOC_NUM
        invariant Rehashing(h, t, grown, bottom, b, i)
      {
        if bottom[b][i].None? {
          RehashSkip(h, t, grown, bottom, b, i);
        } else {
          var q := FindEmpty(h, grown, 0, bottom[b][i].value.key);
          if q.None? {
            BalanceStuck(h, t, grown, b, i, bottom[b][i].value);
            return None;
          }
          RehashStep(h, t, grown, bottom, b, i, q.value);
          grown := Put(grown, q.value, bottom[b][i]);
          bottom := bottom[b := bottom[b][i := None]];
        }
      }
    }
    forall x ensures Count(grown, x) == Count(t, x) {
      NothingInEmpty(bottom, x);
    }
    assert t.levels[1][..|bottom|] == t.levels[1];
    r := Some(grown);
  }

  lemma StartGrowing(h: Hashing, t: Table, grown: Table)
    requires Ok(h, t) && |grown.levels| == 2 && grown.levels[1] == t.levels[0] && |grown.levels[0]| == 2 * |t.levels[0]|
    requires forall b :: 0 <= b < |grown.levels[0]| ==> grown.levels[0][b] == [None, None, None, None]
    ensures Growing(h, t, grown, t.levels[1], 0, 0)
  {
    forall p | IsPlace(grown, p) && At(grown, p).Some? ensures Candidate(h, grown, At(grown, p).value.key, p) {
      var q := Place(0, p.bucket, p.slot);
      assert IsPlace(t, q) && At(t, q) == At(grown, p);
    }
    forall x ensures Count(grown, x) + InLevel(t.levels[1], x) == Count(t, x) {
      NothingInEmpty(grown.levels[0], x);
    }
  }

  // ---- The first item with a key ----

  predicate HasAt(t: Table, p: Place, key: Key) {
    IsPlace(t, p) && At(t, p).Some? && At(t, p).value.key == key
  }

  /** The searches come to place `p` before place `q`. */
  predicate Earlier(p: Place, q: Place) {
    p.level < q.level || (p.level == q.level && (p.bucket < q.bucket || (p.bucket == q.bucket && p.slot < q.slot)))
  }

  ghost predicate IsFirst(t: Table, key: Key, p: Place) {
    HasAt(t, p, key) && forall q :: HasAt(t, q, key) && q != p ==> Earlier(p, q)
  }

  lemma OneFirst(t: Table, key: Key, p: Place, q: Place)
    requires IsFirst(t, key, p) && IsFirst(t, key, q)
    ensures p == q
  {
  }

  /** A new value for the first item with a key is the value that is found next. */
  lemma UpdatedFirst(t: Table, key: Key, value: Val, p: Place)
    requires IsFirst(t, key, p)
    ensures IsFirst(Put(t, p, Some(Item(key, value))), key, p)
    ensures At(Put(t, p, Some(Item(key, value))), p) == Some(Item(key, value))
  {
    var t' := Put(t, p, Some(Item(key, value)));
    PutAt(t, p, Some(Item(key, value)), p);
    forall q | HasAt(t', q, key) && q != p ensures Earlier(p, q) {
      PutAt(t, p, Some(Item(key, value)), q);
      assert HasAt(t, q, key);
    }
  }

  // ---- The table ----

  class LevelTable {
    const h: Hashing
    var t: Table
    var resized: nat

    ghost predicate Valid()
      reads this
    {
      Ok(h, t)
    }

    /** An empty table whose bottom level has `half` buckets. */
    constructor (h: Hashing, half: nat)
      requires half >= 2
      ensures Valid() && this.h == h && resized == 0 && forall x :: Count(t, x) == 0
    {
      this.h := h;
      var empty: Bucket := [None, None, None, None];
      t := Table([seq(2 * half, _ => empty), seq(half, _ => empty)]);
      resized := 0;
      new;
      forall x ensures Count(t, x) == 0 {
        NothingInEmpty(t.levels[0], x);
        NothingInEmpty(t.levels[1], x);
      }
    }

    function Buckets(level: nat): nat
      requires level < |t.levels|
      reads this
    {
      |t.levels[level]|
    }

    /** The first slot of a bucket with the key, or -1. */
    method FindIn(level: nat, b: nat, key: Key) returns (j: int)
      requires Valid() && level < 2 && b < Buckets(level)
      ensures j == -1 || (0 <= j < ASSOC_NUM && HasAt(t, Place(level, b, j), key))
      ensures forall i: nat :: i < (if j < 0 then ASSOC_NUM else j) ==> !HasAt(t, Place(level, b, i), key)
    {
      for i := 0 to ASSOC_NUM
        invariant forall i': nat :: i' < i ==> !HasAt(t, Place(level, b, i'), key)
      {
        if t.levels[level][b][i].Some? && t.levels[level][b][i].value.key == key {
          return i;
        }
      }
      return -1;
    }

    /** Looks in the two buckets of a level. */
    method FindAt(level: nat, key: Key) returns (r: Option<Place>)
      requires Valid() && level < 2
      requires forall p :: HasAt(t, p, key) ==> p.level >= level
      ensures r.Some? ==> IsFirst(t, key, r.value)
      ensures r.None? ==> forall p :: HasAt(t, p, key) ==> p.level > level
    {
      var f, s := FirstIndex(h, key, Buckets(level)), SecondIndex(h, key, Buckets(level));
      forall p | HasAt(t, p, key) && p.level == level ensures p.bucket == f || p.bucket == s {
        assert Candidate(h, t, At(t, p).value.key, p);
      }
      var j := FindIn(level, f, key);
      if j >= 0 {
        return Some(Place(level, f, j));
      }
      forall p | HasAt(t, p, key) && p.level == level ensures p.bucket == s {
        assert p.bucket == f ==> p == Place(level, f, p.slot);
      }
      j := FindIn(level, s, key);
      if j >= 0 {
        return Some(Place(level, s, j));
      }
      forall p | HasAt(t, p, key) ensures p.level > level {
        assert p.level == level ==> p == Place(level, s, p.slot);
      }
      return None;
    }

    /** Looks in the top level and then in the bottom level. */
    method Find(key: Key) returns (r: Option<Place>)
      requires Valid()
      ensures r.None? <==> !HasKey(t, key)
      ensures r.Some? ==> IsFirst(t, key, r.value) && Count(t, At(t, r.value).value) > 0
    {
      for i := 0 to 2
        invariant forall p :: HasAt(t, p, key) ==> p.level >= i
      {
        r := FindAt(i, key);
        if r.Some? {
          IsStored(t, r.value, At(t, r.value).value);
          return;
        }
      }
      r := None;
      forall p | IsPlace(t, p) && At(t, p).Some? ensures At(t, p).value.key != key {
        assert HasAt(t, p, key) ==> p.level >= 2;
      }
      NotThere(t, key);
    }

    /** The query succeeds exactly when the key is stored, with the value of the first item that has it. */
    method Query(key: Key) returns (value: Option<Val>)
      requires Valid()
      ensures value.Some? <==> HasKey(t, key)
      ensures value.Some? ==> Count(t, Item(key, value.value)) > 0
      ensures value.Some? ==> exists p :: IsFirst(t, key, p) && At(t, p) == Some(Item(key, value.value))
    {
      var p := Find(key);
      value := if p.None? then None else Some(At(t, p.value).value.val);
    }

    /** Removes the first item with the key, and nothing else. */
    method Delete(key: Key) returns (ok: bool)
      requires Valid()
      modifies this`t
      ensures Valid() && (ok <==> old(HasKey(t, key)))
      ensures !ok ==> t == old(t)
      ensures ok ==> exists p :: IsFirst(old(t), key, p) && t == Put(old(t), p, None)
      ensures ok ==> exists item: Item :: item.key == key && OneMore(t, old(t), item)
    {
      var p := Find(key);
      if p.None? {
        return false;
      }
      ghost var item := At(t, p.value).value;
      PutOk(h, t, p.value, None);
      forall x ensures Count(t, x) == Count(Put(t, p.value, None), x) + if x == item then 1 else 0 {
        PutCount(t, p.value, None, x);
      }
      t := Put(t, p.value, None);
      assert OneMore(t, old(t), item);
      return true;
    }

    /** Gives the first item with the key a new value, which the next query for the key gives. */
    method Update(key: Key, value: Val) returns (ok: bool)
      requires Valid()
      modifies this`t
      ensures Valid() && (ok <==> old(HasKey(t, key)))
      ensures !ok ==> t == old(t)
      ensures ok ==> exists p :: IsFirst(t, key, p) && At(t, p) == Some(Item(key, value))
      ensures ok ==> exists item: Item :: item.key == key && Exchanged(old(t), t, item, Item(key, value))
    {
      var p := Find(key);
      if p.None? {
        return false;
      }
      ghost var item := At(t, p.value).value;
      var changed := Put(t, p.value, Some(Item(key, value)));
      PutOk(h, t, p.value, Some(Item(key, value)));
      forall x
        ensures Count(changed, x) + (if x == item then 1 else 0) == Count(t, x) + if x == Item(key, value) then 1 else 0
      {
        PutCount(t, p.value, Some(Item(key, value)), x);
      }
      UpdatedFirst(t, key, value, p.value);
      t := changed;
      assert Exchanged(old(t), t, item, Item(key, value));
      return true;
    }

    /** Moves an item of a full bucket to its other bucket of the level, and puts the new one in its place. */
    method TryMovement(idx: nat, level: nat, item: Item) returns (ok: bool)
      requires Valid() && level < 2 && FullBucket(t, level, idx) && Candidate(h, t, item.key, Place(level, idx, 0))
      modifies this`t
      ensures Valid() && (if ok then OneMore(old(t), t, item) else t == old(t))
      ensures ok <==> !old(Stuck(h, t, level, idx))
    {
      for i := 0 to ASSOC_NUM
        invariant t == old(t)
        invariant forall i' :: 0 <= i' < i ==>
            FullBucket(t, level, Other(h, t.levels[level][idx][i'].value.key, Buckets(level), idx))
      {
        var p := Place(level, idx, i);
        var moved := t.levels[level][idx][i].value;
        var f, s := FirstIndex(h, moved.key, Buckets(level)), SecondIndex(h, moved.key, Buckets(level));
        var jdx := if f == idx then s else f;
        for j := 0 to ASSOC_NUM
          invariant t == old(t)
          invariant forall j' :: 0 <= j' < j ==> t.levels[level][jdx][j'].Some?
        {
          var q := Place(level, jdx, j);
          if At(t, q).None? {
            var copied := Put(t, q, Some(moved));
            PutAt(t, q, Some(moved), p);
            MoveKeeps(h, t, p, q, copied, Put(copied, p, None));
            t := Put(copied, p, None);
            FillAdds(h, t, p, item);
            t := Put(t, p, Some(item));
            return true;
          }
        }
      }
      return false;
    }

    /** Moves an item of a full bottom bucket to one of its top buckets.  The slot it leaves is free. */
    method MoveUp(idx: nat) returns (slot: int)
      requires Valid() && FullBucket(t, 1, idx)
      modifies this`t
      ensures Valid() && Same(old(t), t) && Buckets(1) == old(Buckets(1))
      ensures slot == -1 ==> t == old(t)
      ensures slot != -1 ==> 0 <= slot < ASSOC_NUM && idx < Buckets(1) && At(t, Place(1, idx, slot)).None?
      ensures slot == -1 <==> old(StuckBelow(h, t, idx))
    {
      for i := 0 to ASSOC_NUM
        invariant t == old(t)
        invariant forall i' :: 0 <= i' < i ==> NoEmpty(h, t, 0, t.levels[1][idx][i'].value.key)
      {
        var p := Place(1, idx, i);
        var moved := t.levels[1][idx][i].value;
        var q := FindEmpty(h, t, 0, moved.key);
        if q.Some? {
          var copied := Put(t, q.value, Some(moved));
          PutAt(t, q.value, Some(moved), p);
          MoveKeeps(h, t, p, q.value, copied, Put(copied, p, None));
          t := Put(copied, p, None);
          return i;
        }
      }
      return -1;
    }

    /** Stores one more item, or changes nothing; the latter exactly when there is no room. */
    method Insert(item: Item) returns (ok: bool)
      requires Valid()
      modifies this`t
      ensures Valid() && (if ok then OneMore(old(t), t, item) else t == old(t))
      ensures ok <==> !old(NoRoom(h, t, item.key, resized > 0))
    {
      var empty := FindEmpty(h, t, 0, item.key);
      if empty.None? {
        empty := FindEmpty(h, t, 1, item.key);
      }
      if empty.Some? {
        assert !NoRoomAt(h, t, item.key, empty.value.level);
        FillAdds(h, t, empty.value, item);
        t := Put(t, empty.value, Some(item));
        return true;
      }
      ok := InsertByMoving(item);
      if !ok && resized > 0 {
        ok := InsertBelow(FirstIndex(h, item.key, Buckets(1)), item);
        if !ok {
          ok := InsertBelow(SecondIndex(h, item.key, Buckets(1)), item);
        }
      }
    }

    /** Tries all four buckets of the key, which are full. */
    method InsertByMoving(item: Item) returns (ok: bool)
      requires Valid() && NoEmpty(h, t, 0, item.key) && NoEmpty(h, t, 1, item.key)
      modifies this`t
      ensures Valid() && (if ok then OneMore(old(t), t, item) else t == old(t))
      ensures ok <==> !old(NoRoomAt(h, t, item.key, 0) && NoRoomAt(h, t, item.key, 1))
    {
      for i := 0 to 2
        invariant t == old(t)
        invariant forall level :: 0 <= level < i ==> NoRoomAt(h, t, item.key, level)
      {
        assert NoEmpty(h, t, i, item.key);
        ok := TryMovement(FirstIndex(h, item.key, Buckets(i)), i, item);
        if ok {
          assert !old(NoRoomAt(h, t, item.key, i));
          return;
        }
        ok := TryMovement(SecondIndex(h, item.key, Buckets(i)), i, item);
        if ok {
          assert !old(NoRoomAt(h, t, item.key, i));
          return;
        }
      }
      return false;
    }

    /** Grows the table.  It gives up, with the table as it was, when an item finds no room in the new top. */
    method Resize() returns (ok: bool)
      requires Valid()
      modifies this
      ensures Valid() && Same(old(t), t) && (ok <==> old(CanGrow(h, t)))
      ensures if ok then resized == old(resized) + 1 && t.levels[1] == old(t.levels[0]) &&
          Buckets(0) == 2 * old(Buckets(0))
              else t == old(t) && resized == old(resized)
    {
      var grown := Grow(h, t);
      if grown.None? {
        return false;
      }
      t := grown.value;
      resized := resized + 1;
      return true;
    }

    /** Makes room in a bottom bucket and uses it. */
    method InsertBelow(idx: nat, item: Item) returns (ok: bool)
      requires Valid() && FullBucket(t, 1, idx) && Candidate(h, t, item.key, Place(1, idx, 0))
      modifies this`t
      ensures Valid() && (if ok then OneMore(old(t), t, item) else t == old(t))
      ensures ok <==> !old(StuckBelow(h, t, idx))
    {
      var slot := MoveUp(idx);
      if slot == -1 {
        return false;
      }
      FillAdds(h, t, Place(1, idx, slot), item);
      t := Put(t, Place(1, idx, slot), Some(item));
      return true;
    }
  }

  lemma NotThere(t: Table, key: Key)
    requires Shaped(t) && forall p :: IsPlace(t, p) && p.level < 2 && At(t, p).Some? ==> At(t, p).value.key != key
    ensures !HasKey(t, key)
  {
    if x :| Count(t, x) > 0 && x.key == key {
      var p := StoredSomewhere(t, x);
    }
  }
}
