/** In every interleaving the B-tree is a map: each operation takes effect at one instant between its call
    and its return. */
module OlcProof {
  import opened Options
  import opened OlcNodes
  import opened Slots
  import opened OlcTree
  import opened OlcMachine

  // ---- What a thread knows ----

  /** A version that was read: of an unlocked page, and not of the future. */
  ghost predicate WasRead(sh: Shared, x: int, v: nat) {
    Holds(sh, x) && v % 4 == 0 && v <= sh.words[x]
  }

  ghost predicate Mine(sh: Shared, x: int, t: Tid) {
    Holds(sh, x) && sh.owners[x] == Some(t)
  }

  ghost predicate IsLeaf(sh: Shared, x: int) {
    Holds(sh, x) && sh.pages[x].body.Leaf?
  }

  /** As long as its version stands, the page answers for the key. */
  ghost predicate KnowsRange(sh: Shared, x: int, v: nat, k: Key) {
    Holds(sh, x) && (sh.words[x] == v ==> In(sh.pages[x].range, k))
  }

  ghost predicate Names(sh: Shared, p: nat, node: int, k: Key) {
    && Holds(sh, p) && sh.pages[p].body.Inner? && Shaped(sh.pages[p].body) && In(sh.pages[p].range, k)
    && node == ChildFor(sh.pages[p], k)
  }

  /** As long as its version stands, the parent names the node for the key, and has room if the thread may
      have to split the node. */
  ghost predicate KnowsChild(sh: Shared, p: nat, v: nat, node: int, op: Op) {
    && WasRead(sh, p, v) && sh.pages[p].body.Inner?
    && (sh.words[p] == v ==> Names(sh, p, node, op.key) && (op.Insert? ==> !IsFull(sh.pages[p].body)))
  }

  ghost predicate Located(sh: Shared, th: Thread) {
    match th.parent
    case None => KnowsRange(sh, th.node, th.versionNode, th.op.key)
    case Some(p) => KnowsChild(sh, p, th.versionParent, th.node, th.op)
  }

  ghost predicate KnowsFull(sh: Shared, x: int, v: nat, full: bool) {
    Holds(sh, x) && (sh.words[x] == v ==> IsFull(sh.pages[x].body) == full)
  }

  ghost predicate KnowsFound(sh: Shared, x: int, v: nat, k: Key, found: Option<Val>) {
    IsLeaf(sh, x) && (sh.words[x] == v ==> Shaped(sh.pages[x].body) && found == LeafGet(sh.pages[x].body, k))
  }

  /** The parent is locked by the thread, names the node, and has room. */
  ghost predicate HoldsParent(sh: Shared, t: Tid, th: Thread) {
    th.parent.Some? ==>
      var p := th.parent.value;
      Mine(sh, p, t) && Names(sh, p, th.node, th.op.key) && !IsFull(sh.pages[p].body)
  }

  ghost predicate ThreadOk(sh: Shared, t: Tid, th: Thread) {
    && (th.pc != Idle ==> th.begun > 0)
    && match th.pc
       case Idle => true
       case ReadRoot => true
       case RootVersion => Holds(sh, th.node) && th.parent == None
       case RootCheck => WasRead(sh, th.node, th.versionNode) && th.parent == None
       case Visit => WasRead(sh, th.node, th.versionNode) && Located(sh, th)
       case CheckParent =>
         && WasRead(sh, th.node, th.versionNode) && Located(sh, th) && !IsLeaf(sh, th.node)
         && (th.op.Insert? ==> KnowsFull(sh, th.node, th.versionNode, false))
       case ReadChild =>
         && WasRead(sh, th.node, th.versionNode) && KnowsRange(sh, th.node, th.versionNode, th.op.key) &&
             !IsLeaf(sh, th.node)
         && (th.op.Insert? ==> KnowsFull(sh, th.node, th.versionNode, false))
       case CheckInner => th.parent.Some? && KnowsChild(sh, th.parent.value, th.versionParent, th.node, th.op)
       case ChildVersion =>
         Holds(sh, th.node) && th.parent.Some? && KnowsChild(sh, th.parent.value, th.versionParent, th.node, th.op)
       case LockLeaf =>
         && WasRead(sh, th.node, th.versionNode) && Located(sh, th) && IsLeaf(sh, th.node) && th.op.Insert?
         && KnowsFull(sh, th.node, th.versionNode, false)
       case LeafParent =>
         && Mine(sh, th.node, t) && IsLeaf(sh, th.node) && !IsFull(sh.pages[th.node].body) && th.op.Insert?
         && th.parent.Some? && KnowsChild(sh, th.parent.value, th.versionParent, th.node, th.op)
       case Store =>
         && Mine(sh, th.node, t) && IsLeaf(sh, th.node) && !IsFull(sh.pages[th.node].body) && th.op.Insert?
         && In(sh.pages[th.node].range, th.op.key)
       case UnlockDone => Mine(sh, th.node, t)
       case UnlockRestart => Mine(sh, th.node, t)
       case SplitLockParent =>
         && WasRead(sh, th.node, th.versionNode) && Located(sh, th) && th.parent.Some? && th.op.Insert?
         && KnowsFull(sh, th.node, th.versionNode, true)
       case SplitLockNode =>
         && WasRead(sh, th.node, th.versionNode) && HoldsParent(sh, t, th) &&
             KnowsFull(sh, th.node, th.versionNode, true)
       case SplitRootCheck => Mine(sh, th.node, t) && IsFull(sh.pages[th.node].body) && th.parent == None
       case Split =>
         && Mine(sh, th.node, t) && IsFull(sh.pages[th.node].body) && HoldsParent(sh, t, th)
         && (th.parent == None ==> th.node == sh.root)
       case SplitUnlockNode =>
         Mine(sh, th.node, t) && (th.parent.Some? ==> Mine(sh, th.parent.value, t) && th.parent.value != th.node)
       case UnlockParent => th.parent.Some? && Mine(sh, th.parent.value, t)
       case LookupParent =>
         && WasRead(sh, th.node, th.versionNode) && Located(sh, th) && th.op.Lookup? &&
             th.result == Set(th.result, th.found)
         && KnowsFound(sh, th.node, th.versionNode, th.op.key, th.found)
       case LookupNode =>
         && WasRead(sh, th.node, th.versionNode) && KnowsRange(sh, th.node, th.versionNode, th.op.key)
         && th.op.Lookup? && th.result == Set(th.result, th.found)
         && KnowsFound(sh, th.node, th.versionNode, th.op.key, th.found)
  }

  // ---- The invariant ----

  /** A word is even, and half of it is odd while the page is locked. */
  ghost predicate WordOk(word: nat, owner: Option<Tid>) {
    word % 2 == 0 && (word % 4 == 2 <==> owner.Some?)
  }

  ghost predicate LocksOk(sh: Shared) {
    && |sh.words| == |sh.owners| == |sh.pages|
    && forall x :: 0 <= x < |sh.words| ==> WordOk(sh.words[x], sh.owners[x])
  }

  /** The operations of a thread that have taken effect. */
  function Effective(th: Thread): nat {
    if th.pc.Idle? || th.pc.UnlockDone? || th.begun == 0 then th.begun else th.begun - 1
  }

  ghost predicate Took(done: seq<Effect>, t: Tid, number: nat) {
    exists i :: 0 <= i < |done| && done[i].tid == t && done[i].number == number
  }

  /** Operation by operation, each thread's calls have taken effect, each exactly once. */
  ghost predicate OnceEach(s: State) {
    && (forall i, j :: 0 <= i < j < |s.done| ==>
        !(s.done[i].tid == s.done[j].tid && s.done[i].number == s.done[j].number))
    && (forall t, number :: t in s.threads && 0 <= number ==>
        (Took(s.done, t, number) <==> number < Effective(s.threads[t])))
  }

  ghost predicate ThreadsOk(s: State) {
    forall t :: t in s.threads ==> ThreadOk(s.sh, t, s.threads[t])
  }

  ghost predicate Inv(s: State) {
    && LocksOk(s.sh) && TreeOk(s.sh.pages, s.sh.root) && Agrees(s.sh.pages, MapOf(s.done))
    && ThreadsOk(s) && OnceEach(s) && Legal(s.done)
  }

  // ---- What a step leaves alone ----

  /** A step of `t`: versions only grow, pages change only under the lock of `t`, and what others hold
      stays theirs. */
  ghost predicate Frame(sh: Shared, sh': Shared, t: Tid) {
    && LocksOk(sh) && LocksOk(sh') && |sh'.pages| >= |sh.pages|
    && (forall x :: 0 <= x < |sh.pages| ==>
          && sh'.words[x] >= sh.words[x]
          && (sh.owners[x] != Some(t) ==> sh'.pages[x] == sh.pages[x])
          && (sh.owners[x].Some? && sh.owners[x] != Some(t) ==>
              sh'.owners[x] == sh.owners[x] && sh'.words[x] == sh.words[x])
          && sh'.pages[x].body.Leaf? == sh.pages[x].body.Leaf?)
    && (sh'.root == sh.root || (sh.root < |sh.owners| && sh.owners[sh.root] == Some(t)))
  }

  /** Reads of the past are kept: if the version stands, the page is as it was. */
  lemma Unmoved(sh: Shared, sh': Shared, t: Tid, x: int, v: nat)
    requires Frame(sh, sh', t) && WasRead(sh, x, v)
    ensures WasRead(sh', x, v) && IsLeaf(sh', x) == IsLeaf(sh, x)
    ensures sh'.words[x] == v ==> sh.words[x] == v && sh'.pages[x] == sh.pages[x]
  {
  }

  lemma ChildUnmoved(sh: Shared, sh': Shared, t: Tid, p: nat, v: nat, node: int, op: Op)
    requires Frame(sh, sh', t) && KnowsChild(sh, p, v, node, op)
    ensures KnowsChild(sh', p, v, node, op)
  {
    Unmoved(sh, sh', t, p, v);
  }

  lemma LocatedUnmoved(sh: Shared, sh': Shared, t: Tid, th: Thread)
    requires Frame(sh, sh', t) && WasRead(sh, th.node, th.versionNode) && Located(sh, th)
    ensures WasRead(sh', th.node, th.versionNode) && Located(sh', th)
  {
    Unmoved(sh, sh', t, th.node, th.versionNode);
    if th.parent.Some? {
      ChildUnmoved(sh, sh', t, th.parent.value, th.versionParent, th.node, th.op);
    }
  }

  lemma MineUnmoved(sh: Shared, sh': Shared, t: Tid, u: Tid, x: int)
    requires Frame(sh, sh', t) && u != t && Mine(sh, x, u)
    ensures Mine(sh', x, u) && sh'.pages[x] == sh.pages[x] && IsLeaf(sh', x) == IsLeaf(sh, x)
  {
  }

  predicate HoldsLock(pc: Pc) {
    pc in {LeafParent, Store, UnlockDone, UnlockRestart, SplitLockNode, SplitRootCheck, Split, SplitUnlockNode,
        UnlockParent}
  }

  lemma ReaderOk(sh: Shared, sh': Shared, t: Tid, u: Tid, th: Thread)
    requires Frame(sh, sh', t) && ThreadOk(sh, u, th) && !HoldsLock(th.pc)
    ensures ThreadOk(sh', u, th)
  {
    match th.pc
    case Idle | ReadRoot | RootVersion =>
    case RootCheck => Unmoved(sh, sh', t, th.node, th.versionNode);
    case Visit => LocatedUnmoved(sh, sh', t, th);
    case CheckParent | LockLeaf | SplitLockParent | LookupParent =>
      LocatedUnmoved(sh, sh', t, th);
      Unmoved(sh, sh', t, th.node, th.versionNode);
    case ReadChild | LookupNode => Unmoved(sh, sh', t, th.node, th.versionNode);
    case CheckInner | ChildVersion => ChildUnmoved(sh, sh', t, th.parent.value, th.versionParent, th.node, th.op);
  }

  lemma HolderOk(sh: Shared, sh': Shared, t: Tid, u: Tid, th: Thread)
    requires Frame(sh, sh', t) && sh.root < |sh.pages| && u != t && ThreadOk(sh, u, th) && HoldsLock(th.pc)
    ensures ThreadOk(sh', u, th)
  {
    match th.pc
    case LeafParent =>
      MineUnmoved(sh, sh', t, u, th.node);
      ChildUnmoved(sh, sh', t, th.parent.value, th.versionParent, th.node, th.op);
    case Store | UnlockDone | UnlockRestart | SplitRootCheck => MineUnmoved(sh, sh', t, u, th.node);
    case SplitLockNode =>
      Unmoved(sh, sh', t, th.node, th.versionNode);
      if th.parent.Some? {
        MineUnmoved(sh, sh', t, u, th.parent.value);
      }
    case Split | SplitUnlockNode =>
      MineUnmoved(sh, sh', t, u, th.node);
      if th.parent.Some? {
        MineUnmoved(sh, sh', t, u, th.parent.value);
      }
    case UnlockParent => MineUnmoved(sh, sh', t, u, th.parent.value);
  }

  lemma OtherOk(sh: Shared, sh': Shared, t: Tid, u: Tid, th: Thread)
    requires Frame(sh, sh', t) && sh.root < |sh.pages| && u != t && ThreadOk(sh, u, th)
    ensures ThreadOk(sh', u, th)
  {
    if HoldsLock(th.pc) {
      HolderOk(sh, sh', t, u, th);
    } else {
      ReaderOk(sh, sh', t, u, th);
    }
  }

  // ---- Steps keep the invariant ----

  ghost predicate Moved(s: State, s': State, t: Tid, th': Thread) {
    t in s.threads && s'.threads == s.threads[t := th'] && Frame(s.sh, s'.sh, t) && ThreadOk(s'.sh, t, th')
  }

  lemma AllOk(s: State, s': State, t: Tid, th': Thread)
    requires Inv(s) && Moved(s, s', t, th')
    ensures ThreadsOk(s')
  {
    forall u | u in s'.threads ensures ThreadOk(s'.sh, u, s'.threads[u]) {
      if u != t {
        OtherOk(s.sh, s'.sh, t, u, s.threads[u]);
      }
    }
  }

  /** A step that leaves all pages as they are. */
  lemma Silent(s: State, s': State, t: Tid, th': Thread)
    requires Inv(s) && Moved(s, s', t, th') && s'.done == s.done && Effective(th') == Effective(s.threads[t])
    requires s'.sh.pages == s.sh.pages && s'.sh.root == s.sh.root
    ensures Inv(s')
  {
    AllOk(s, s', t, th');
  }

  lemma Local(s: State, s': State, t: Tid, th': Thread)
    requires Inv(s) && t in s.threads && s' == Put(s, t, th') && ThreadOk(s.sh, t, th')
    requires Effective(th') == Effective(s.threads[t])
    ensures Inv(s')
  {
    Silent(s, s', t, th');
  }

  /** A step at which an operation takes effect. */
  lemma OnceMore(s: State, s': State, t: Tid, th': Thread, e: Effect)
    requires OnceEach(s) && t in s.threads && s'.threads == s.threads[t := th'] && s'.done == s.done + [e]
    requires e.tid == t && e.number == Effective(s.threads[t]) && Effective(th') == e.number + 1
    ensures OnceEach(s')
  {
    assert !Took(s.done, t, e.number);
    forall i, j | 0 <= i < j < |s'.done|
        ensures !(s'.done[i].tid == s'.done[j].tid && s'.done[i].number == s'.done[j].number) {
      assert s'.done[i] == s.done[i] && !(s.done[i].tid == t && s.done[i].number == e.number);
    }
    forall u, number | u in s'.threads && 0 <= number
      ensures Took(s'.done, u, number) <==> number < Effective(s'.threads[u])
    {
      if Took(s.done, u, number) {
        var i :| 0 <= i < |s.done| && s.done[i].tid == u && s.done[i].number == number;
        assert s'.done[i] == s.done[i];
      }
      if u == t && number == e.number {
        assert s'.done[|s.done|] == e;
      }
      if Took(s'.done, u, number) {
        var i :| 0 <= i < |s'.done| && s'.done[i].tid == u && s'.done[i].number == number;
        assert i < |s.done| ==> s.done[i] == s'.done[i];
      }
    }
  }

  lemma LegalMore(done: seq<Effect>, e: Effect)
    requires Legal(done) && (e.op.Lookup? ==> LegalAnswer(MapOf(done), e.op.key, e.answer))
    ensures Legal(done + [e])
    ensures MapOf(done + [e]) == if e.op.Insert? then MapOf(done)[e.op.key := e.op.val] else MapOf(done)
  {
    var more := done + [e];
    assert more[..|done|] == done;
    forall i | 0 <= i < |more| && more[i].op.Lookup?
      ensures LegalAnswer(MapOf(more[..i]), more[i].op.key, more[i].answer)
    {
      assert i < |done| ==> more[..i] == done[..i] && more[i] == done[i];
    }
  }

  // ---- Step by step ----

  ghost predicate At(s: State, t: Tid, th: Thread) {
    t in s.threads && s.threads[t] == th && ThreadOk(s.sh, t, th)
  }

  /** What a parent that still stands says about the node. */
  lemma ParentStands(sh: Shared, th: Thread)
    requires LocksOk(sh) && TreeOk(sh.pages, sh.root) && th.parent.Some?
    requires KnowsChild(sh, th.parent.value, th.versionParent, th.node, th.op)
    requires sh.words[th.parent.value] == th.versionParent
    ensures Holds(sh, th.node) && In(sh.pages[th.node].range, th.op.key)
  {
    ChildForIn(sh.pages, sh.root, th.parent.value, th.op.key);
  }

  lemma BeginOk(s: State, s': State, t: Tid, th: Thread, c: Choice)
    requires Inv(s) && At(s, t, th) && th.pc in {Idle, ReadRoot, RootCheck}
    requires th.pc == Idle ==> StepBegin(s, s', t, th, c)
    requires th.pc == ReadRoot ==> StepReadRoot(s, s', t, th)
    requires th.pc == RootCheck ==> StepRootCheck(s, s', t, th)
    ensures Inv(s')
  {
    Local(s, s', t, s'.threads[t]);
  }

  lemma UnlockedIs(sh: Shared, x: nat)
    requires LocksOk(sh) && Holds(sh, x)
    ensures !IsLocked(sh.words[x]) ==> WasRead(sh, x, sh.words[x])
  {
    assert WordOk(sh.words[x], sh.owners[x]);
  }

  lemma VersionOk(s: State, s': State, t: Tid, th: Thread)
    requires Inv(s) && At(s, t, th) && th.pc in {RootVersion, ChildVersion}
    requires StepVersion(s, s', t, th, if th.pc == RootVersion then RootCheck else Visit)
    ensures Inv(s')
  {
    UnlockedIs(s.sh, th.node);
    Local(s, s', t, s'.threads[t]);
  }

  lemma VisitOk(s: State, s': State, t: Tid, th: Thread, c: Choice)
    requires Inv(s) && At(s, t, th) && th.pc == Visit && StepVisit(s, s', t, th, c)
    ensures Inv(s')
  {
    Local(s, s', t, s'.threads[t]);
  }

  lemma CheckOk(s: State, s': State, t: Tid, c: Choice)
    requires Inv(s) && t in s.threads && Step(s, s', t, c)
    requires s.threads[t].pc in {CheckInner, CheckParent, LeafParent, LookupParent}
    ensures Inv(s') && s.done <= s'.done && s'.threads.Keys == s.threads.Keys
  {
    var th := s.threads[t];
    assert ThreadOk(s.sh, t, th);
    if th.parent.Some? && s.sh.words[th.parent.value] == th.versionParent {
      ParentStands(s.sh, th);
    }
    Local(s, s', t, s'.threads[t]);
  }

  lemma ReadChildOk(s: State, s': State, t: Tid, th: Thread, c: Choice)
    requires Inv(s) && At(s, t, th) && th.pc == ReadChild && StepReadChild(s, s', t, th, c)
    ensures Inv(s')
  {
    Local(s, s', t, s'.threads[t]);
  }

  lemma LockFrame(sh: Shared, x: nat, t: Tid)
    requires LocksOk(sh) && Holds(sh, x) && sh.words[x] % 4 == 0
    ensures Frame(sh, Lock(sh, x, t), t)
  {
    assert WordOk(sh.words[x], sh.owners[x]);
    assert WordOk(sh.words[x] + 2, Some(t));
  }

  lemma UnlockFrame(sh: Shared, x: nat, t: Tid)
    requires LocksOk(sh) && Mine(sh, x, t)
    ensures Frame(sh, Unlock(sh, x), t)
  {
    assert WordOk(sh.words[x], sh.owners[x]);
    assert WordOk(sh.words[x] + 2, None);
  }

  lemma LockLeafOk(s: State, s': State, t: Tid, th: Thread)
    requires Inv(s) && At(s, t, th) && th.pc == LockLeaf
    requires StepLock(s, s', t, th, th.node, th.versionNode, AfterLock(th, LeafParent, Store), ReadRoot)
    ensures Inv(s')
  {
    if s.sh.words[th.node] == th.versionNode {
      LockFrame(s.sh, th.node, t);
      Silent(s, s', t, s'.threads[t]);
    } else {
      Local(s, s', t, s'.threads[t]);
    }
  }

  lemma LockParentOk(s: State, s': State, t: Tid, th: Thread)
    requires Inv(s) && At(s, t, th) && th.pc == SplitLockParent && th.parent.Some?
    requires StepLock(s, s', t, th, th.parent.value, th.versionParent, SplitLockNode, ReadRoot)
    ensures Inv(s')
  {
    if s.sh.words[th.parent.value] == th.versionParent {
      LockFrame(s.sh, th.parent.value, t);
      Silent(s, s', t, s'.threads[t]);
    } else {
      Local(s, s', t, s'.threads[t]);
    }
  }

  lemma LockNodeOk(s: State, s': State, t: Tid, th: Thread)
    requires Inv(s) && At(s, t, th) && th.pc == SplitLockNode
    requires StepLock(s, s', t, th, th.node, th.versionNode, AfterLock(th, Split, SplitRootCheck),
        AfterLock(th, UnlockParent, ReadRoot))
    ensures Inv(s')
  {
    if s.sh.words[th.node] == th.versionNode {
      LockFrame(s.sh, th.node, t);
      Silent(s, s', t, s'.threads[t]);
    } else {
      Local(s, s', t, s'.threads[t]);
    }
  }

  lemma UnlockOk(s: State, s': State, t: Tid, th: Thread, x: int, next: Pc)
    requires Inv(s) && At(s, t, th) && StepUnlock(s, s', t, th, x, next)
    requires || (th.pc == UnlockDone && x == th.node && next == Idle)
             || (th.pc == UnlockRestart && x == th.node && next == ReadRoot)
             || (th.pc == SplitUnlockNode && x == th.node && next == AfterLock(th, UnlockParent, ReadRoot))
             || (th.pc == UnlockParent && th.parent == Some(x) && next == ReadRoot)
    ensures Inv(s')
  {
    UnlockFrame(s.sh, x, t);
    Silent(s, s', t, s'.threads[t]);
  }

  lemma StoreStepOk(s: State, s': State, t: Tid, th: Thread)
    requires Inv(s) && At(s, t, th) && th.pc == Store && StepStore(s, s', t, th)
    ensures Inv(s')
  {
    var e := s'.done[|s.done|];
    StoreOk(s.sh.pages, s.sh.root, th.node, th.op.key, th.op.val, MapOf(s.done));
    LegalMore(s.done, e);
    OnceMore(s, s', t, s'.threads[t], e);
    AllOk(s, s', t, s'.threads[t]);
  }

  /** What a leaf that answers for the key gave is what the map holds. */
  lemma FoundIsHeld(s: State, th: Thread)
    requires Inv(s) && KnowsFound(s.sh, th.node, th.versionNode, th.op.key, th.found)
    requires KnowsRange(s.sh, th.node, th.versionNode, th.op.key) && s.sh.words[th.node] == th.versionNode
    ensures th.found == MapGet(MapOf(s.done), th.op.key)
  {
    assert LeafAgrees(s.sh.pages[th.node], MapOf(s.done));
  }

  /** A lookup whose last check succeeds takes effect there. */
  lemma LookedUp(s: State, s': State, t: Tid, th: Thread, c: Choice)
    requires Inv(s) && At(s, t, th) && th.pc == LookupNode && th.found == MapGet(MapOf(s.done), th.op.key)
    requires s.sh.words[th.node] == th.versionNode && StepLookupNode(s, s', t, th, c)
    ensures Inv(s')
  {
    var e := s'.done[|s.done|];
    LegalMore(s.done, e);
    OnceMore(s, s', t, th.(pc := Idle), e);
  }

  lemma LookupNodeOk(s: State, s': State, t: Tid, th: Thread, c: Choice)
    requires Inv(s) && At(s, t, th) && th.pc == LookupNode && StepLookupNode(s, s', t, th, c)
    ensures Inv(s')
  {
    if s.sh.words[th.node] == th.versionNode {
      FoundIsHeld(s, th);
      LookedUp(s, s', t, th, c);
    } else {
      Local(s, s', t, s'.threads[t]);
    }
  }

  lemma RootSplitCheckOk(s: State, s': State, t: Tid, th: Thread)
    requires Inv(s) && At(s, t, th) && th.pc == SplitRootCheck && StepRootSplitCheck(s, s', t, th)
    ensures Inv(s')
  {
    Local(s, s', t, s'.threads[t]);
  }

  lemma SplitFrame(sh: Shared, t: Tid, th: Thread)
    requires LocksOk(sh) && CanHalve(sh, th) && Mine(sh, th.node, t) && (th.parent == None ==> th.node == sh.root)
    requires (th.parent.Some? ==> Mine(sh, th.parent.value, t)) && th.begun > 0
    ensures Frame(sh, AfterSplit(sh, th), t) && ThreadOk(AfterSplit(sh, th), t, th.(pc := SplitUnlockNode))
  {
    assert WordOk(FIRST_VERSION, None);
  }

  lemma SplitTree(sh: Shared, th: Thread, t: Tid, m: map<Key, Val>)
    requires LocksOk(sh) && TreeOk(sh.pages, sh.root) && Agrees(sh.pages, m)
    requires CanHalve(sh, th) && HoldsParent(sh, t, th) && (th.parent == None ==> th.node == sh.root)
    ensures TreeOk(AfterSplit(sh, th).pages, AfterSplit(sh, th).root) && Agrees(AfterSplit(sh, th).pages, m)
  {
    if th.parent.Some? {
      var p := th.parent.value;
      SplitBelowOk(sh.pages, sh.root, th.node, p, Lower(sh.pages[p].body.keys, th.op.key));
    } else {
      SplitRootOk(sh.pages, sh.root);
    }
    SplitAgrees(sh.pages, th.node, AfterSplit(sh, th).pages, m);
  }

  lemma SplitStepOk(s: State, s': State, t: Tid, th: Thread)
    requires Inv(s) && At(s, t, th) && th.pc == Split && StepSplit(s, s', t, th)
    ensures Inv(s')
  {
    SplitFrame(s.sh, t, th);
    SplitTree(s.sh, th, t, MapOf(s.done));
    AllOk(s, s', t, s'.threads[t]);
  }

  lemma StartSteps(s: State, s': State, t: Tid, c: Choice)
    requires Inv(s) && t in s.threads && Step(s, s', t, c)
    requires s.threads[t].pc in {Idle, ReadRoot, RootCheck, RootVersion, ChildVersion}
    ensures Inv(s') && s.done <= s'.done && s'.threads.Keys == s.threads.Keys
  {
    var th := s.threads[t];
    assert At(s, t, th);
    match th.pc
    case Idle | ReadRoot | RootCheck => BeginOk(s, s', t, th, c);
    case RootVersion | ChildVersion => VersionOk(s, s', t, th);
  }

  lemma DescendSteps(s: State, s': State, t: Tid, c: Choice)
    requires Inv(s) && t in s.threads && Step(s, s', t, c) && s.threads[t].pc in {Visit, ReadChild}
    ensures Inv(s') && s.done <= s'.done && s'.threads.Keys == s.threads.Keys
  {
    var th := s.threads[t];
    assert At(s, t, th);
    match th.pc
    case Visit => VisitOk(s, s', t, th, c);
    case ReadChild => ReadChildOk(s, s', t, th, c);
  }

  lemma LocksSteps(s: State, s': State, t: Tid, c: Choice)
    requires Inv(s) && t in s.threads && Step(s, s', t, c)
    requires s.threads[t].pc in {LockLeaf, SplitLockParent, SplitLockNode}
    ensures Inv(s') && s.done <= s'.done && s'.threads.Keys == s.threads.Keys
  {
    var th := s.threads[t];
    assert At(s, t, th);
    match th.pc
    case LockLeaf => LockLeafOk(s, s', t, th);
    case SplitLockParent => LockParentOk(s, s', t, th);
    case SplitLockNode => LockNodeOk(s, s', t, th);
  }

  lemma UnlocksSteps(s: State, s': State, t: Tid, c: Choice)
    requires Inv(s) && t in s.threads && Step(s, s', t, c)
    requires s.threads[t].pc in {UnlockDone, UnlockRestart, SplitUnlockNode, UnlockParent}
    ensures Inv(s') && s.done <= s'.done && s'.threads.Keys == s.threads.Keys
  {
    var th := s.threads[t];
    assert At(s, t, th);
    match th.pc
    case UnlockDone => UnlockOk(s, s', t, th, th.node, Idle);
    case UnlockRestart => UnlockOk(s, s', t, th, th.node, ReadRoot);
    case SplitUnlockNode => UnlockOk(s, s', t, th, th.node, AfterLock(th, UnlockParent, ReadRoot));
    case UnlockParent => UnlockOk(s, s', t, th, th.parent.value, ReadRoot);
  }

  lemma EffectSteps(s: State, s': State, t: Tid, c: Choice)
    requires Inv(s) && t in s.threads && Step(s, s', t, c) && s.threads[t].pc in {Store, LookupNode}
    ensures Inv(s') && s.done <= s'.done && s'.threads.Keys == s.threads.Keys
  {
    var th := s.threads[t];
    assert At(s, t, th);
    match th.pc
    case Store => StoreStepOk(s, s', t, th);
    case LookupNode => LookupNodeOk(s, s', t, th, c);
  }

  lemma SplitsSteps(s: State, s': State, t: Tid, c: Choice)
    requires Inv(s) && t in s.threads && Step(s, s', t, c) && s.threads[t].pc in {SplitRootCheck, Split}
    ensures Inv(s') && s.done <= s'.done && s'.threads.Keys == s.threads.Keys
  {
    var th := s.threads[t];
    assert At(s, t, th);
    match th.pc
    case SplitRootCheck => RootSplitCheckOk(s, s', t, th);
    case Split => SplitStepOk(s, s', t, th);
  }

  lemma InvStep(s: State, s': State)
    requires Inv(s) && Next(s, s')
    ensures Inv(s') && s.done <= s'.done && s'.threads.Keys == s.threads.Keys
  {
    var t, c :| t in s.threads && Step(s, s', t, c);
    match s.threads[t].pc
    case Idle | ReadRoot | RootCheck | RootVersion | ChildVersion => StartSteps(s, s', t, c);
    case Visit | ReadChild => DescendSteps(s, s', t, c);
    case CheckInner | CheckParent | LeafParent | LookupParent => CheckOk(s, s', t, c);
    case LockLeaf | SplitLockParent | SplitLockNode => LocksSteps(s, s', t, c);
    case UnlockDone | UnlockRestart | SplitUnlockNode | UnlockParent => UnlocksSteps(s, s', t, c);
    case Store | LookupNode => EffectSteps(s, s', t, c);
    case SplitRootCheck | Split => SplitsSteps(s, s', t, c);
  }

  lemma InvStart(s: State)
    requires Start(s)
    ensures Inv(s)
  {
  }

  lemma {:induction false} InvRun(run: seq<State>, i: nat)
    requires Run(run) && i < |run|
    ensures Inv(run[i])
  {
    if i == 0 {
      InvStart(run[0]);
    } else {
      InvRun(run, i - 1);
      assert Stepped(run, i - 1);
      InvStep(run[i - 1], run[i]);
    }
  }

  // ---- Calls ----

  /** In step `i` thread `t` makes its call `number`, and `c.op` is what it asks for. */
  ghost predicate CalledIn(run: seq<State>, i: nat, t: Tid, number: nat, c: Choice) {
    && i + 1 < |run| && t in run[i].threads && run[i].threads[t].pc == Idle && run[i].threads[t].begun == number
    && Step(run[i], run[i + 1], t, c)
  }

  /** The effect is that of the call with its number, made before state `j`: it is what was asked for then. */
  ghost predicate IsOfCall(run: seq<State>, j: nat, e: Effect) {
    exists i: nat, c :: i < j && CalledIn(run, i, e.tid, e.number, c) && c.op == e.op
  }

  /** Only a step of its own from `Idle` brings a thread to another call. */
  lemma CallKept(s: State, s': State, t: Tid, c: Choice, u: Tid)
    requires t in s.threads && u in s.threads && Step(s, s', t, c)
    ensures u in s'.threads
    ensures if u == t && s.threads[t].pc == Idle
            then s'.threads[u].begun == s.threads[u].begun + 1 && s'.threads[u].op == c.op
            else s'.threads[u].begun == s.threads[u].begun && s'.threads[u].op == s.threads[u].op
  {
  }

  /** What takes effect is the operation that the thread is at. */
  lemma EffectMade(s: State, s': State, t: Tid, c: Choice)
    requires t in s.threads && Step(s, s', t, c) && s.threads[t].pc != Idle && s.threads[t].begun > 0
    ensures s'.done == s.done ||
            (|s'.done| == |s.done| + 1 && s.done <= s'.done &&
             var e := s'.done[|s.done|];
             e.tid == t && e.op == s.threads[t].op && e.number + 1 == s.threads[t].begun)
  {
  }

  /** The number of calls of a thread grows, and as long as it stays the operation is the same. */
  lemma {:induction false} OpStays(run: seq<State>, i: nat, j: nat, t: Tid)
    requires Run(run) && i <= j < |run| && t in run[i].threads
    ensures t in run[j].threads && run[i].threads[t].begun <= run[j].threads[t].begun
    ensures run[i].threads[t].begun == run[j].threads[t].begun ==> run[i].threads[t].op == run[j].threads[t].op
  {
    if i < j {
      OpStays(run, i, j - 1, t);
      assert Stepped(run, j - 1);
      var u, c :| u in run[j - 1].threads && Step(run[j - 1], run[j], u, c);
      CallKept(run[j - 1], run[j], u, c, t);
    }
  }

  /** A thread that is at a call, or was at last, has made it in an earlier step. */
  lemma {:induction false} CallOf(run: seq<State>, j: nat, t: Tid) returns (i: nat, c: Choice)
    requires Run(run) && j < |run| && t in run[j].threads && run[j].threads[t].begun > 0
    ensures i < j && CalledIn(run, i, t, run[j].threads[t].begun - 1, c) && c.op == run[j].threads[t].op
  {
    assert j > 0;
    EffectsGrow(run, j - 1, j);
    assert Stepped(run, j - 1);
    var u, c' :| u in run[j - 1].threads && Step(run[j - 1], run[j], u, c');
    CallKept(run[j - 1], run[j], u, c', t);
    if u == t && run[j - 1].threads[t].pc == Idle {
      i, c := j - 1, c';
    } else {
      i, c := CallOf(run, j - 1, t);
    }
  }

  lemma AtCall(run: seq<State>, i: nat, t: Tid)
    requires Run(run) && i < |run| && t in run[i].threads && run[i].threads[t].pc != Idle
    ensures run[i].threads[t].begun > 0
  {
    InvRun(run, i);
    assert ThreadOk(run[i].sh, t, run[i].threads[t]);
  }

  /** When effect `x` was made its thread was at the call with its number, and at its operation. */
  lemma {:induction false} EffectAt(run: seq<State>, j: nat, x: nat) returns (m: nat)
    requires Run(run) && j < |run| && x < |run[j].done|
    ensures m < j && run[j].done[x].tid in run[m].threads
    ensures var th := run[m].threads[run[j].done[x].tid];
            th.begun == run[j].done[x].number + 1 && th.op == run[j].done[x].op
  {
    assert j > 0;
    EffectsGrow(run, j - 1, j);
    assert Stepped(run, j - 1);
    var t, c :| t in run[j - 1].threads && Step(run[j - 1], run[j], t, c);
    if x < |run[j - 1].done| {
      assert run[j].done[x] == run[j - 1].done[x];
      m := EffectAt(run, j - 1, x);
    } else {
      assert run[j - 1].threads[t].pc != Idle;
      AtCall(run, j - 1, t);
      EffectMade(run[j - 1], run[j], t, c);
      m := j - 1;
    }
  }

  lemma EffectIsOfCall(run: seq<State>, j: nat, x: nat)
    requires Run(run) && j < |run| && x < |run[j].done|
    ensures IsOfCall(run, j, run[j].done[x])
  {
    var m := EffectAt(run, j, x);
    var i, c := CallOf(run, m, run[j].done[x].tid);
  }

  /** Whenever a thread is at the call with the number of an effect it is at the operation of the effect. */
  lemma EffectOfCall(run: seq<State>, i: nat, j: nat, x: nat)
    requires Run(run) && i < |run| && j < |run| && x < |run[j].done| && run[j].done[x].tid in run[i].threads
    requires run[i].threads[run[j].done[x].tid].begun == run[j].done[x].number + 1
    ensures run[i].threads[run[j].done[x].tid].op == run[j].done[x].op
  {
    var m := EffectAt(run, j, x);
    var t := run[j].done[x].tid;
    if i <= m {
      OpStays(run, i, m, t);
    } else {
      OpStays(run, m, i, t);
    }
  }

  // ---- Linearizability ----

  /** In every reachable state the operations that have taken effect can be replayed one after the other on
      a map: a lookup of a key that is in the map then answers success and the value the map holds, and the
      leaves hold the map they make.  What a lookup of an absent key answers is left open.  Each thread's
      operations have taken effect exactly once, and those it has returned from are among them; and what has
      taken effect is what was asked for in the step that made the call. */
  lemma Linearizable(run: seq<State>, i: nat)
    requires Run(run) && i < |run|
    ensures Legal(run[i].done) && OnceEach(run[i])
    ensures forall x :: 0 <= x < |run[i].done| ==> IsOfCall(run, i, run[i].done[x])
    ensures forall k :: HeldAt(run[i].sh.pages, k, MapGet(MapOf(run[i].done), k))
  {
    forall x | 0 <= x < |run[i].done| ensures IsOfCall(run, i, run[i].done[x]) {
      EffectIsOfCall(run, i, x);
    }
    InvRun(run, i);
    var s := run[i];
    forall k ensures HeldAt(s.sh.pages, k, MapGet(MapOf(s.done), k)) {
      var leaf := LeafFor(s.sh.pages, s.sh.root, s.sh.root, k);
      assert LeafAgrees(s.sh.pages[leaf], MapOf(s.done));
    }
  }

  /** The leaf that answers for the key gives `v` for it. */
  ghost predicate HeldAt(pages: seq<Page>, k: Key, v: Option<Val>) {
    exists x :: 0 <= x < |pages| && AnswersWith(pages[x], k, v)
  }

  ghost predicate AnswersWith(pg: Page, k: Key, v: Option<Val>) {
    pg.body.Leaf? && |pg.body.keys| == |pg.body.vals| && In(pg.range, k) && LeafGet(pg.body, k) == v
  }

  /** Effects are only ever added, so the order of effects agrees with real time: an operation that
      returned before another began stands before it. */
  lemma {:induction false} EffectsGrow(run: seq<State>, i: nat, j: nat)
    requires Run(run) && i <= j < |run|
    ensures run[i].done <= run[j].done && run[i].threads.Keys == run[j].threads.Keys
  {
    if i < j {
      EffectsGrow(run, i, j - 1);
      InvRun(run, j - 1);
      assert Stepped(run, j - 1);
      InvStep(run[j - 1], run[j]);
    }
  }

  /** Operation `number` of `t` has returned. */
  predicate Returned(s: State, t: Tid, number: nat) {
    t in s.threads && number < s.threads[t].begun && (s.threads[t].pc == Idle || number + 1 < s.threads[t].begun)
  }

  /** Operation `number` of `t` has not been called. */
  predicate NotCalled(s: State, t: Tid, number: nat) {
    t in s.threads && s.threads[t].begun <= number
  }

  /** The order of effects agrees with real time: an operation that had returned before another was called
      took effect before it. */
  lemma RealTime(run: seq<State>, i: nat, j: nat, x: nat, y: nat)
    requires Run(run) && i <= j < |run| && x < |run[j].done| && y < |run[j].done|
    requires Returned(run[i], run[j].done[x].tid, run[j].done[x].number)
    requires NotCalled(run[i], run[j].done[y].tid, run[j].done[y].number)
    ensures x < y
  {
    InvRun(run, i);
    InvRun(run, j);
    EffectsGrow(run, i, j);
    var a, b := run[j].done[x], run[j].done[y];
    assert Took(run[i].done, a.tid, a.number);
    var z :| 0 <= z < |run[i].done| && run[i].done[z].tid == a.tid && run[i].done[z].number == a.number;
    assert run[j].done[z] == run[i].done[z];
    assert !Took(run[i].done, b.tid, b.number);
    assert forall n :: 0 <= n < |run[i].done| ==> run[j].done[n] == run[i].done[n];
  }

  lemma CanRead(s: State, t: Tid, th: Thread) returns (s': State, c: Choice)
    requires Inv(s) && At(s, t, th) && !HoldsLock(th.pc)
    ensures Step(s, s', t, c)
  {
    c := Choice(th.op, th.result, false, 0, None, false);
    match th.pc
    case Idle => s' := Put(s, t, th.(pc := ReadRoot, begun := th.begun + 1, op := c.op, result := c.result));
    case ReadRoot => s' := Put(s, t, th.(pc := RootVersion, node := s.sh.root, parent := None));
    case RootCheck => s' := Put(s, t, if th.node == s.sh.root then th.(pc := Visit) else Restart(th));
    case Visit | ReadChild => s', c := CanVisit(s, t, th);
    case RootVersion | ChildVersion =>
      var word := s.sh.words[th.node];
      s' := Put(s, t, if IsLocked(word) then Restart(th)
                      else th.(versionNode := word, pc := if th.pc == RootVersion then RootCheck else Visit));
    case CheckInner | CheckParent | LookupParent =>
      var next := if th.pc == CheckInner then ChildVersion else if th.pc == CheckParent then ReadChild else LookupNode;
      s' := Put(s, t, th.(pc := if th.parent.Some? && s.sh.words[th.parent.value] != th.versionParent then ReadRoot
          else next));
    case LockLeaf =>
      s' := if s.sh.words[th.node] == th.versionNode
            then Put(s.(sh := Lock(s.sh, th.node, t)), t, th.(pc := AfterLock(th, LeafParent, Store)))
            else Put(s, t, th.(pc := ReadRoot));
    case SplitLockParent =>
      s' := if s.sh.words[th.parent.value] == th.versionParent
            then Put(s.(sh := Lock(s.sh, th.parent.value, t)), t, th.(pc := SplitLockNode))
            else Put(s, t, th.(pc := ReadRoot));
    case LookupNode =>
      s' := if s.sh.words[th.node] == th.versionNode
            then Put(s.(done := TookEffect(s, t, th, Answer(th.found.Some? || c.success, th.result))), t,
                th.(pc := Idle))
            else Put(s, t, Restart(th));
  }

  lemma CanVisit(s: State, t: Tid, th: Thread) returns (s': State, c: Choice)
    requires Inv(s) && At(s, t, th) && th.pc in {Visit, ReadChild}
    ensures Step(s, s', t, c)
  {
    var pg := s.sh.pages[th.node];
    assert PageOk(pg);
    c := Choice(th.op, th.result, IsFull(pg.body), if pg.body.Inner? then ChildFor(pg, th.op.key) else 0,
                if pg.body.Leaf? then LeafGet(pg.body, th.op.key) else None, false);
    if th.pc == Visit {
      s' := Put(s, t,
                if th.op.Insert? && c.full then th.(pc := if th.parent.Some? then SplitLockParent else SplitLockNode)
                else if pg.body.Inner? then th.(pc := CheckParent)
                else if th.op.Insert? then th.(pc := LockLeaf)
                else th.(pc := LookupParent, found := c.found, result := Set(th.result, c.found)));
    } else {
      s' := Put(s, t, th.(pc := CheckInner, parent := Some(th.node), versionParent := th.versionNode, node := c.child));
    }
  }

  lemma CanHold(s: State, t: Tid, th: Thread) returns (s': State, c: Choice)
    requires Inv(s) && At(s, t, th) && HoldsLock(th.pc)
    ensures Step(s, s', t, c)
  {
    c := Choice(th.op, th.result, false, 0, None, false);
    match th.pc
    case LeafParent =>
      s' := Put(s, t, th.(pc := if s.sh.words[th.parent.value] != th.versionParent then UnlockRestart else Store));
    case SplitLockNode =>
      s' := if s.sh.words[th.node] == th.versionNode
            then Put(s.(sh := Lock(s.sh, th.node, t)), t, th.(pc := AfterLock(th, Split, SplitRootCheck)))
            else Put(s, t, th.(pc := AfterLock(th, UnlockParent, ReadRoot)));
    case UnlockDone => s' := Put(s.(sh := Unlock(s.sh, th.node)), t, th.(pc := Idle));
    case UnlockRestart => s' := Put(s.(sh := Unlock(s.sh, th.node)), t, th.(pc := ReadRoot));
    case SplitUnlockNode =>
        s' := Put(s.(sh := Unlock(s.sh, th.node)), t, th.(pc := AfterLock(th, UnlockParent, ReadRoot)));
    case UnlockParent => s' := Put(s.(sh := Unlock(s.sh, th.parent.value)), t, th.(pc := ReadRoot));
    case SplitRootCheck => s' := Put(s, t, th.(pc := if th.node == s.sh.root then Split else UnlockRestart));
    case Store =>
      assert PageOk(s.sh.pages[th.node]);
      s' := Put(s.(sh := s.sh.(pages := Stored(s.sh.pages, th.node, th.op.key, th.op.val)),
                   done := TookEffect(s, t, th, NoAnswer)),
                t, th.(pc := UnlockDone));
    case Split =>
      ReadyToSplit(s.sh, t, th);
      s' := Put(s.(sh := AfterSplit(s.sh, th)), t, th.(pc := SplitUnlockNode));
  }

  /** A page is split only with room above it, and is not its own parent. */
  lemma ReadyToSplit(sh: Shared, t: Tid, th: Thread)
    requires TreeOk(sh.pages, sh.root) && ThreadOk(sh, t, th) && th.pc == Split
    ensures CanHalve(sh, th)
  {
    if th.parent.Some? {
      ChildForIn(sh.pages, sh.root, th.parent.value, th.op.key);
    }
  }

  /** No step is undefined: in every reachable state every thread can go on, so no pointer that was read
      is followed unless it is one, and no page is filled beyond its end. */
  lemma NeverStuck(run: seq<State>, i: nat, t: Tid)
    requires Run(run) && i < |run| && t in run[i].threads
    ensures exists s', c :: Step(run[i], s', t, c)
  {
    InvRun(run, i);
    var th := run[i].threads[t];
    assert At(run[i], t, th);
    if HoldsLock(th.pc) {
      var s', c := CanHold(run[i], t, th);
    } else {
      var s', c := CanRead(run[i], t, th);
    }
  }
}
