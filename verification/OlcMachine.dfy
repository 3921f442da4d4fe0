/** Inserts and lookups of the B-tree, one shared access at a time, by any number of threads. */
module OlcMachine {
  import opened Options
  import opened OlcNodes
  import opened Slots
  import opened OlcTree

  type Tid = nat

  datatype Op = Insert(key: Key, val: Val) | Lookup(key: Key)

  /** Where a thread stands: the next thing it does. */
  datatype Pc =
    | Idle | ReadRoot | RootVersion | RootCheck
    | Visit | CheckParent | ReadChild | CheckInner | ChildVersion
    | LockLeaf | LeafParent | Store | UnlockDone | UnlockRestart
    | SplitLockParent | SplitLockNode | SplitRootCheck | Split | SplitUnlockNode | UnlockParent
    | LookupParent | LookupNode

  /** `begun` counts the operations of the thread.  `node` may be any value until it has been validated.
      `found` is what the search of the leaf read, and `result` the variable of the caller that a lookup sets. */
  datatype Thread = Thread(pc: Pc, begun: nat, op: Op, node: int, versionNode: nat, parent: Option<nat>,
                           versionParent: nat, found: Option<Val>, result: Val)

  /** The page contents, the version words, and the root pointer.  `owners` is not stored: it says who
      holds a lock. */
  datatype Shared = Shared(pages: seq<Page>, words: seq<nat>, owners: seq<Option<Tid>>, root: nat)

  /** What a lookup hands back: the flag, and the variable of the caller. */
  datatype Answer = NoAnswer | Answer(success: bool, result: Val)

  /** One operation at the instant it takes effect. */
  datatype Effect = Effect(tid: Tid, number: nat, op: Op, answer: Answer)

  /** `done` lists the operations in the order in which they took effect. */
  datatype State = State(sh: Shared, threads: map<Tid, Thread>, done: seq<Effect>)

  const FIRST_VERSION: nat := 4

  predicate IsLocked(word: nat) {
    (word / 2) % 2 == 1
  }

  /** What a caller asks for, what its variable holds before, and what a read of unstable or unset memory
      brings: any value. */
  datatype Choice = Choice(op: Op, result: Val, full: bool, child: int, found: Option<Val>, success: bool)

  predicate Shaped(b: Body) {
    if b.Leaf? then |b.keys| == |b.vals| else |b.children| == |b.keys| + 1
  }

  function Put(s: State, t: Tid, th: Thread): State {
    s.(threads := s.threads[t := th])
  }

  function Restart(th: Thread): Thread {
    th.(pc := ReadRoot)
  }

  function Lock(sh: Shared, x: nat, t: Tid): Shared
    requires x < |sh.words| == |sh.owners|
  {
    sh.(words := sh.words[x := sh.words[x] + 2], owners := sh.owners[x := Some(t)])
  }

  function Unlock(sh: Shared, x: nat): Shared
    requires x < |sh.words| == |sh.owners|
  {
    sh.(words := sh.words[x := sh.words[x] + 2], owners := sh.owners[x := None])
  }

  predicate Holds(sh: Shared, x: int) {
    0 <= x < |sh.pages| == |sh.words| == |sh.owners|
  }

  // ---- Descending ----

  predicate StepBegin(s: State, s': State, t: Tid, th: Thread, c: Choice) {
    s' == Put(s, t, th.(pc := ReadRoot, begun := th.begun + 1, op := c.op, result := c.result))
  }

  predicate StepReadRoot(s: State, s': State, t: Tid, th: Thread) {
    s' == Put(s, t, th.(pc := RootVersion, node := s.sh.root, parent := None))
  }

  predicate StepVersion(s: State, s': State, t: Tid, th: Thread, next: Pc) {
    && Holds(s.sh, th.node)
    && var word := s.sh.words[th.node];
       s' == Put(s, t, if IsLocked(word) then Restart(th) else th.(versionNode := word, pc := next))
  }

  predicate StepRootCheck(s: State, s': State, t: Tid, th: Thread) {
    s' == Put(s, t, if th.node == s.sh.root then th.(pc := Visit) else Restart(th))
  }

  /** Reads the fill, and in a leaf that is searched the pair.  The values are those of the page if its
      version is still the one that was read, and anything at all otherwise.  A pair that is found sets the
      variable of the caller, even if the search has to be repeated. */
  predicate StepVisit(s: State, s': State, t: Tid, th: Thread, c: Choice) {
    && Holds(s.sh, th.node) && Shaped(s.sh.pages[th.node].body)
    && var body := s.sh.pages[th.node].body;
       && (s.sh.words[th.node] == th.versionNode ==>
             c.full == IsFull(body) && (body.Leaf? ==> c.found == LeafGet(body, th.op.key)))
       && s' == Put(s, t,
                    if th.op.Insert? && c.full
                        then th.(pc := if th.parent.Some? then SplitLockParent else SplitLockNode)
                    else if body.Inner? then th.(pc := CheckParent)
                    else if th.op.Insert? then th.(pc := LockLeaf)
                    else th.(pc := LookupParent, found := c.found, result := Set(th.result, c.found)))
  }

  function Set(result: Val, found: Option<Val>): Val {
    if found.Some? then found.value else result
  }

  /** Goes on if the version of the parent, where there is one, is still the one that was read. */
  predicate StepCheckParent(s: State, s': State, t: Tid, th: Thread, next: Pc, otherwise: Pc) {
    && (th.parent.Some? ==> Holds(s.sh, th.parent.value))
    && var stale := th.parent.Some? && s.sh.words[th.parent.value] != th.versionParent;
       s' == Put(s, t, th.(pc := if stale then otherwise else next))
  }

  predicate StepReadChild(s: State, s': State, t: Tid, th: Thread, c: Choice) {
    && Holds(s.sh, th.node) && s.sh.pages[th.node].body.Inner? && Shaped(s.sh.pages[th.node].body)
    && (s.sh.words[th.node] == th.versionNode ==> c.child == ChildFor(s.sh.pages[th.node], th.op.key))
    && s' == Put(s, t, th.(pc := CheckInner, parent := Some(th.node), versionParent := th.versionNode, node := c.child))
  }

  // ---- Storing ----

  /** Takes the lock by compare and swap on the version that was read. */
  predicate StepLock(s: State, s': State, t: Tid, th: Thread, x: int, version: nat, next: Pc, otherwise: Pc) {
    && Holds(s.sh, x)
    && s' == if s.sh.words[x] == version
             then Put(s.(sh := Lock(s.sh, x, t)), t, th.(pc := next))
             else Put(s, t, th.(pc := otherwise))
  }

  predicate StepUnlock(s: State, s': State, t: Tid, th: Thread, x: int, next: Pc) {
    Holds(s.sh, x) && s' == Put(s.(sh := Unlock(s.sh, x)), t, th.(pc := next))
  }

  function TookEffect(s: State, t: Tid, th: Thread, answer: Answer): seq<Effect> {
    s.done + [Effect(t, if th.begun > 0 then th.begun - 1 else 0, th.op, answer)]
  }

  predicate StepStore(s: State, s': State, t: Tid, th: Thread) {
    && Holds(s.sh, th.node) && th.op.Insert?
    && var body := s.sh.pages[th.node].body;
       && body.Leaf? && Shaped(body) && !IsFull(body)
       && s' == Put(s.(sh := s.sh.(pages := Stored(s.sh.pages, th.node, th.op.key, th.op.val)),
                       done := TookEffect(s, t, th, NoAnswer)),
                    t, th.(pc := UnlockDone))
  }

  // ---- Splitting ----

  predicate StepRootSplitCheck(s: State, s': State, t: Tid, th: Thread) {
    s' == Put(s, t, th.(pc := if th.node == s.sh.root then Split else UnlockRestart))
  }

  ghost predicate CanHalve(sh: Shared, th: Thread) {
    && Holds(sh, th.node) && PageOk(sh.pages[th.node]) && IsFull(sh.pages[th.node].body)
    && (th.parent.Some? ==>
          && Holds(sh, th.parent.value) && th.parent.value != th.node
          && sh.pages[th.parent.value].body.Inner? && Shaped(sh.pages[th.parent.value].body)
          && !IsFull(sh.pages[th.parent.value].body))
  }

  /** Halves the page and links the new one, below the parent or below a new root.  Both pages that change
      are locked. */
  ghost function AfterSplit(sh: Shared, th: Thread): Shared
    requires CanHalve(sh, th)
  {
    if th.parent.Some? then
      sh.(pages := SplitBelow(sh.pages, th.node, th.parent.value),
          words := sh.words + [FIRST_VERSION], owners := sh.owners + [None])
    else
      sh.(pages := SplitRoot(sh.pages, th.node), root := |sh.pages| + 1,
          words := sh.words + [FIRST_VERSION, FIRST_VERSION], owners := sh.owners + [None, None])
  }

  ghost predicate StepSplit(s: State, s': State, t: Tid, th: Thread) {
    CanHalve(s.sh, th) && s' == Put(s.(sh := AfterSplit(s.sh, th)), t, th.(pc := SplitUnlockNode))
  }

  // ---- Looking up ----

  /** The flag is set where the key was found, and nowhere else. */
  predicate StepLookupNode(s: State, s': State, t: Tid, th: Thread, c: Choice) {
    && Holds(s.sh, th.node)
    && s' == if s.sh.words[th.node] == th.versionNode
             then Put(s.(done := TookEffect(s, t, th, Answer(th.found.Some? || c.success, th.result))), t,
                 th.(pc := Idle))
             else Put(s, t, Restart(th))
  }

  // ---- All steps ----

  function AfterLock(th: Thread, below: Pc, alone: Pc): Pc {
    if th.parent.Some? then below else alone
  }

  ghost predicate Step(s: State, s': State, t: Tid, c: Choice)
    requires t in s.threads
  {
    var th := s.threads[t];
    match th.pc
    case Idle => StepBegin(s, s', t, th, c)
    case ReadRoot => StepReadRoot(s, s', t, th)
    case RootVersion => StepVersion(s, s', t, th, RootCheck)
    case RootCheck => StepRootCheck(s, s', t, th)
    case Visit => StepVisit(s, s', t, th, c)
    case CheckParent => StepCheckParent(s, s', t, th, ReadChild, ReadRoot)
    case ReadChild => StepReadChild(s, s', t, th, c)
    case CheckInner => StepCheckParent(s, s', t, th, ChildVersion, ReadRoot)
    case ChildVersion => StepVersion(s, s', t, th, Visit)
    case LockLeaf => StepLock(s, s', t, th, th.node, th.versionNode, AfterLock(th, LeafParent, Store), ReadRoot)
    case LeafParent => StepCheckParent(s, s', t, th, Store, UnlockRestart)
    case Store => StepStore(s, s', t, th)
    case UnlockDone => StepUnlock(s, s', t, th, th.node, Idle)
    case UnlockRestart => StepUnlock(s, s', t, th, th.node, ReadRoot)
    case SplitLockParent =>
      th.parent.Some? && StepLock(s, s', t, th, th.parent.value, th.versionParent, SplitLockNode, ReadRoot)
    case SplitLockNode =>
      StepLock(s, s', t, th, th.node, th.versionNode, AfterLock(th, Split, SplitRootCheck),
               AfterLock(th, UnlockParent, ReadRoot))
    case SplitRootCheck => StepRootSplitCheck(s, s', t, th)
    case Split => StepSplit(s, s', t, th)
    case SplitUnlockNode => StepUnlock(s, s', t, th, th.node, AfterLock(th, UnlockParent, ReadRoot))
    case UnlockParent => th.parent.Some? && StepUnlock(s, s', t, th, th.parent.value, ReadRoot)
    case LookupParent => StepCheckParent(s, s', t, th, LookupNode, ReadRoot)
    case LookupNode => StepLookupNode(s, s', t, th, c)
  }

  /** One empty leaf, and threads that have done nothing. */
  ghost predicate Start(s: State) {
    && s.sh == Shared([Page(0, FULL, Leaf([], []))], [FIRST_VERSION], [None], 0)
    && s.done == []
    && forall t :: t in s.threads ==> s.threads[t].pc == Idle && s.threads[t].begun == 0
  }

  ghost predicate Next(s: State, s': State) {
    exists t, c :: t in s.threads && Step(s, s', t, c)
  }

  ghost predicate Stepped(run: seq<State>, i: nat)
    requires i + 1 < |run|
  {
    Next(run[i], run[i + 1])
  }

  ghost predicate Run(run: seq<State>) {
    |run| > 0 && Start(run[0]) && forall i: nat :: i + 1 < |run| ==> Stepped(run, i)
  }

  // ---- The sequential meaning ----

  /** The map that the operations make, one after the other. */
  function MapOf(done: seq<Effect>): map<Key, Val> {
    if done == [] then map[] else
    var last := done[|done| - 1].op;
    var m := MapOf(done[..|done| - 1]);
    if last.Insert? then m[last.key := last.val] else m
  }

  /** Every lookup of a key that the map held when it took effect gave its value. */
  ghost predicate Legal(done: seq<Effect>) {
    forall i :: 0 <= i < |done| && done[i].op.Lookup? ==> LegalAnswer(MapOf(done[..i]), done[i].op.key, done[i].answer)
  }

  predicate LegalAnswer(m: map<Key, Val>, k: Key, answer: Answer) {
    answer.Answer? && (k in m ==> answer == Answer(true, m[k]))
  }
}
