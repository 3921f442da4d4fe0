/** The level-structured hash table that grows while it is searched: expanders append levels and publish
    metadata, one thread moves the items of the last level up and retires it, and searchers go from the
    last level to the first. */
module ClevelMachine {
  import opened Options

  type Key = int
  type Tid = nat

  const ASSOC_NUM: nat := 4

  /** The hash of a key, and the hash of its tag mixed with a bucket index.  Nothing is asked of them. */
  datatype Hashing = Hashing(hash: Key -> nat, mix: (Key, nat) -> nat)

  function FirstIndex(h: Hashing, k: Key, capacity: nat): (i: nat)
    requires capacity >= 2
    ensures i < capacity / 2
  {
    h.hash(k) % (capacity / 2)
  }

  function SecondIndex(h: Hashing, k: Key, capacity: nat): (i: nat)
    requires capacity >= 2
    ensures capacity / 2 <= i < capacity
  {
    h.mix(k, FirstIndex(h, k, capacity)) % (capacity / 2) + capacity / 2
  }

  datatype Level = Level(capacity: nat, up: Option<nat>, buckets: seq<seq<Option<Key>>>)

  datatype Meta = Meta(first: nat, last: nat, resizing: bool)

  /** `metas` lists the metadata in the order in which it was published: the last is the one in force.
      Published metadata is never freed, so a pointer to it is its place in the list. */
  datatype Shared = Shared(levels: seq<Level>, metas: seq<Meta>)

  datatype Pc =
    | Idle
    | ExpandLoad | ExpandUp | ExpandAppend | ExpandHelp | ExpandPublish | ExpandReload
    | SearchLoad | SearchRead | SearchNext | SearchCheck | SearchFound | SearchMissed
    | Count | RehashLoad | ReadSource | ReadTarget | CasTarget | ClearSource | Retire | RetireReload

  /** `m` is the metadata the thread works with.  A search stands at `level` and `pos`, the slots of the two
      buckets counted through.  A rehash stands at `bucket` and `slot` of the last level and at place `pos`
      among the slots it may move `source` to.  `target` is not stored: it is the level with the capacity
      `newCapacity`. */
  datatype Thread = Thread(pc: Pc, m: nat, newCapacity: nat, target: nat, key: Key, level: nat, pos: nat,
                           bucket: nat, slot: nat, source: Option<Key>)

  datatype State = State(sh: Shared, workers: map<Tid, Thread>, rehasher: Thread)

  // ---- Slots ----

  datatype Place = Place(level: nat, bucket: nat, slot: nat)

  predicate IsPlace(sh: Shared, p: Place) {
    p.level < |sh.levels| && p.bucket < |sh.levels[p.level].buckets| && p.slot < |sh.levels[p.level].buckets[p.bucket]|
  }

  function At(sh: Shared, p: Place): Option<Key>
    requires IsPlace(sh, p)
  {
    sh.levels[p.level].buckets[p.bucket][p.slot]
  }

  function Put(sh: Shared, p: Place, v: Option<Key>): Shared
    requires IsPlace(sh, p)
  {
    var l := sh.levels[p.level];
    sh.(levels := sh.levels[p.level := l.(buckets := l.buckets[p.bucket := l.buckets[p.bucket][p.slot := v]])])
  }

  function Current(sh: Shared): int {
    |sh.metas| - 1
  }

  function MetaOf(sh: Shared, th: Thread): Meta
    requires th.m < |sh.metas|
  {
    sh.metas[th.m]
  }

  // ---- Expanding ----

  predicate IsExpanding(pc: Pc) {
    pc.ExpandLoad? || pc.ExpandUp? || pc.ExpandAppend? || pc.ExpandHelp? || pc.ExpandPublish? || pc.ExpandReload?
  }

  predicate IsSearching(pc: Pc) {
    pc.SearchLoad? || pc.SearchRead? || pc.SearchNext? || pc.SearchCheck?
  }

  /** What an expander does: reads `up`, appends a level or helps, and publishes.  `after` is where it goes
      when it is through. */
  ghost predicate ExpandStep(sh: Shared, th: Thread, sh': Shared, th': Thread, after: Pc) {
    if th.pc == ExpandLoad then
      sh' == sh && |sh.metas| > 0 && th' == th.(m := |sh.metas| - 1, pc := ExpandUp)
    else
      && th.m < |sh.metas| && MetaOf(sh, th).first < |sh.levels|
      && var top := MetaOf(sh, th).first;
         var cl := sh.levels[top];
         match th.pc
         case ExpandUp =>
           && sh' == sh
           && th' == if cl.up.None? then th.(pc := ExpandAppend, newCapacity := cl.capacity * 2, target := top + 1)
                     else th.(pc := ExpandHelp)
         case ExpandAppend =>
           && sh' == (if cl.up.None? then Appended(sh, top, th.newCapacity) else sh)
           && th' == th.(pc := ExpandPublish)
         case ExpandHelp =>
           && sh' == sh
           && th' == if th.m == Current(sh)
                     then th.(pc := ExpandPublish, newCapacity := cl.capacity, target := top)
                     else th.(pc := after)
         case ExpandPublish =>
           && (cl.capacity < th.newCapacity ==> cl.up.Some?)
           && var first := if cl.capacity >= th.newCapacity then top else cl.up.value;
              if th.m == Current(sh)
              then sh' == Published(sh, Meta(first, MetaOf(sh, th).last, true)) && th' == th.(pc := after)
              else sh' == sh && th' == th.(pc := ExpandReload)
         case ExpandReload =>
           && sh' == sh
           && var m := sh.metas[|sh.metas| - 1];
              m.first < |sh.levels| &&
              th' == th.(m := |sh.metas| - 1,
                         pc := if sh.levels[m.first].capacity >= th.newCapacity && m.resizing
                               then after else ExpandPublish)
         case _ => false
  }

  function EmptyLevel(capacity: nat): Level {
    Level(capacity, None, seq(capacity, _ => seq(ASSOC_NUM, _ => None)))
  }

  function Appended(sh: Shared, top: nat, capacity: nat): Shared
    requires top < |sh.levels|
  {
    sh.(levels := sh.levels[top := sh.levels[top].(up := Some(|sh.levels|))] + [EmptyLevel(capacity)])
  }

  function Published(sh: Shared, m: Meta): Shared {
    sh.(metas := sh.metas + [m])
  }

  // ---- Searching ----

  /** The slot a search looks at: the first bucket slot by slot, then the second. */
  function Scanned(h: Hashing, sh: Shared, k: Key, level: nat, pos: nat): Place
    requires level < |sh.levels| && sh.levels[level].capacity >= 2
  {
    var capacity := sh.levels[level].capacity;
    if pos < ASSOC_NUM then Place(level, FirstIndex(h, k, capacity), pos)
    else Place(level, SecondIndex(h, k, capacity), pos - ASSOC_NUM)
  }

  /** A search starts at the last level of the metadata in force. */
  function Begin(sh: Shared, th: Thread): Thread
    requires |sh.metas| > 0
  {
    th.(m := |sh.metas| - 1, level := sh.metas[|sh.metas| - 1].last, pos := 0, pc := SearchRead)
  }

  ghost predicate SearchStep(h: Hashing, sh: Shared, th: Thread, th': Thread) {
    if th.pc == SearchLoad then
      |sh.metas| > 0 && th' == Begin(sh, th)
    else
      && th.m < |sh.metas|
      && match th.pc
         case SearchRead =>
           && th.level < |sh.levels| && sh.levels[th.level].capacity >= 2
           && var p := Scanned(h, sh, th.key, th.level, th.pos);
              IsPlace(sh, p) &&
              th' == if At(sh, p) == Some(th.key) then th.(pc := SearchFound)
                     else if th.pos + 1 < 2 * ASSOC_NUM then th.(pos := th.pos + 1)
                     else th.(pc := SearchNext)
         case SearchNext =>
           && th.level < |sh.levels|
           && if th.level == MetaOf(sh, th).first then th' == th.(pc := SearchCheck)
              else
                && sh.levels[th.level].up.Some?
                && th' == th.(level := sh.levels[th.level].up.value, pos := 0, pc := SearchRead)
         case SearchCheck =>
           th' == if th.m == Current(sh) then th.(pc := SearchMissed) else Begin(sh, th)
         case _ => false
  }

  // ---- Moving items up ----

  /** The slot that is to be moved, and the slots it may go to: the two buckets by turns. */
  function SourcePlace(sh: Shared, th: Thread): Place
    requires th.m < |sh.metas|
  {
    Place(MetaOf(sh, th).last, th.bucket, th.slot)
  }

  function TargetPlace(h: Hashing, sh: Shared, th: Thread, k: Key): Place
    requires th.m < |sh.metas| && MetaOf(sh, th).first < |sh.levels| && sh.levels[MetaOf(sh, th).first].capacity >= 2
  {
    var tl := MetaOf(sh, th).first;
    var capacity := sh.levels[tl].capacity;
    Place(tl, if th.pos % 2 == 0 then FirstIndex(h, k, capacity) else SecondIndex(h, k, capacity), th.pos / 2)
  }

  /** On to the next slot it may go to, and if there is none the table is expanded. */
  function NextTarget(th: Thread): Thread {
    if th.pos + 1 < 2 * ASSOC_NUM then th.(pos := th.pos + 1, pc := ReadTarget) else th.(pc := ExpandUp)
  }

  ghost predicate RehashStep(h: Hashing, sh: Shared, th: Thread, sh': Shared, th': Thread) {
    if IsExpanding(th.pc) then ExpandStep(sh, th, sh', th', RehashLoad) else MoveStep(h, sh, th, sh', th')
  }

  ghost predicate MoveStep(h: Hashing, sh: Shared, th: Thread, sh': Shared, th': Thread) {
    && |sh.metas| > 0
    && match th.pc
       case Count =>
         var m := sh.metas[|sh.metas| - 1];
         sh' == sh && th' == if m.first == m.last + 1 then th else th.(pc := RehashLoad, m := |sh.metas| - 1)
       case RehashLoad => sh' == sh && th' == th.(m := |sh.metas| - 1, slot := 0, pc := ReadSource)
       case ReadSource =>
         && sh' == sh && th.m < |sh.metas| && MetaOf(sh, th).last < |sh.levels|
         && if th.slot == ASSOC_NUM then
              th' == th.(bucket := th.bucket + 1,
                         pc := if th.bucket + 1 == sh.levels[MetaOf(sh, th).last].capacity then Retire else Count)
            else
              IsPlace(sh, SourcePlace(sh, th)) &&
              var v := At(sh, SourcePlace(sh, th));
              th' == if v.None? then th.(slot := th.slot + 1) else th.(source := v, pos := 0, pc := ReadTarget)
       case ReadTarget =>
         && sh' == sh && CanMove(h, sh, th)
         && th' == if At(sh, TargetPlace(h, sh, th, th.source.value)).None?
                   then th.(pc := CasTarget) else NextTarget(th)
       case CasTarget =>
         && CanMove(h, sh, th)
         && var p := TargetPlace(h, sh, th, th.source.value);
            if At(sh, p).None? then sh' == Put(sh, p, th.source) && th' == th.(pc := ClearSource)
            else sh' == sh && th' == NextTarget(th)
       case ClearSource =>
         && th.m < |sh.metas| && IsPlace(sh, SourcePlace(sh, th))
         && sh' == Put(sh, SourcePlace(sh, th), None) && th' == th.(slot := th.slot + 1, pc := ReadSource)
       case Retire =>
         && th.m < |sh.metas| && MetaOf(sh, th).last < |sh.levels|
         && var mine := MetaOf(sh, th);
            var up := sh.levels[mine.last].up;
            up.Some? &&
            if th.m == Current(sh) then
              && sh' == Published(sh, Meta(mine.first, up.value, mine.first - mine.last != 2))
              && th' == th.(bucket := 0, pc := Count)
            else
              sh' == sh && th' == th.(pc := RetireReload)
       case RetireReload => sh' == sh && th' == th.(m := |sh.metas| - 1, pc := Retire)
       case _ => false
  }

  ghost predicate CanMove(h: Hashing, sh: Shared, th: Thread) {
    && th.m < |sh.metas| && MetaOf(sh, th).first < |sh.levels| && sh.levels[MetaOf(sh, th).first].capacity >= 2
    && th.source.Some? && IsPlace(sh, TargetPlace(h, sh, th, th.source.value))
  }

  // ---- All steps ----

  /** A worker begins a search or an expansion, goes on with it, or forgets the result of a search. */
  ghost predicate WorkerStep(h: Hashing, sh: Shared, th: Thread, sh': Shared, th': Thread) {
    if IsExpanding(th.pc) then ExpandStep(sh, th, sh', th', Idle)
    else
      && sh' == sh
      && if IsSearching(th.pc) then SearchStep(h, sh, th, th')
         else if th.pc == Idle then th' == th.(key := th'.key, pc := SearchLoad) || th' == th.(pc := ExpandLoad)
         else th.pc in {SearchFound, SearchMissed} && th' == th.(pc := Idle)
  }

  /** Inserts, updates and removals of other keys: any slot that does not hold `k` gets anything but `k`. */
  ghost predicate OtherWrite(sh: Shared, sh': Shared, k: Key) {
    exists p, v :: IsPlace(sh, p) && At(sh, p) != Some(k) && v != Some(k) && sh' == Put(sh, p, v)
  }

  ghost predicate WorkerMoves(h: Hashing, s: State, s': State, t: Tid, th': Thread)
    requires t in s.workers
  {
    WorkerStep(h, s.sh, s.workers[t], s'.sh, th') && s' == s.(sh := s'.sh, workers := s.workers[t := th'])
  }

  ghost predicate Next(h: Hashing, k: Key, s: State, s': State) {
    || (exists t, th' :: t in s.workers && WorkerMoves(h, s, s', t, th'))
    || (RehashStep(h, s.sh, s.rehasher, s'.sh, s'.rehasher) && s' == s.(sh := s'.sh, rehasher := s'.rehasher))
    || (OtherWrite(s.sh, s'.sh, k) && s' == s.(sh := s'.sh))
  }

  /** Each level leads up to the next, which is twice as large. */
  ghost predicate ChainOk(levels: seq<Level>) {
    forall i :: 0 <= i < |levels| ==> LevelOk(levels, i)
  }

  ghost predicate LevelOk(levels: seq<Level>, i: nat)
    requires i < |levels|
  {
    && levels[i].capacity >= 2 && BucketsOk(levels[i])
    && (i + 1 < |levels| ==> levels[i].up == Some(i + 1) && levels[i + 1].capacity == 2 * levels[i].capacity)
    && (i + 1 == |levels| ==> levels[i].up == None)
  }

  /** At least two levels, with anything in them, and nobody at work. */
  ghost predicate Start(s: State) {
    && ChainOk(s.sh.levels) && |s.sh.metas| == 1 && s.sh.metas[0].last < s.sh.metas[0].first < |s.sh.levels|
    && (forall t :: t in s.workers ==> s.workers[t].pc == Idle)
    && s.rehasher.pc == Count && s.rehasher.bucket == 0
  }

  ghost predicate BucketsOk(l: Level) {
    |l.buckets| == l.capacity && forall b :: 0 <= b < |l.buckets| ==> |l.buckets[b]| == ASSOC_NUM
  }

  ghost predicate Stepped(h: Hashing, k: Key, run: seq<State>, i: nat)
    requires i + 1 < |run|
  {
    Next(h, k, run[i], run[i + 1])
  }

  ghost predicate Run(h: Hashing, k: Key, run: seq<State>) {
    |run| > 0 && Start(run[0]) && forall i: nat :: i + 1 < |run| ==> Stepped(h, k, run, i)
  }
}
