/** An insert that nobody disturbs, in any run of the machine: it restarts only after a split, and at most once for
    every level that the tree had. */
module OlcSolo {
  import opened Options
  import opened OlcNodes
  import opened Slots
  import opened OlcTree
  import opened OlcMachine
  import opened OlcProof
  import opened OlcAlone

  // ---- What a lone thread can rely on ----

  /** The pages of `xs` are locked by `t`, and no others are locked. */
  ghost predicate OnlyLocked(sh: Shared, t: Tid, xs: set<int>) {
    && |sh.owners| == |sh.words| == |sh.pages| && (forall x :: x in xs ==> 0 <= x < |sh.owners|)
    && forall x :: 0 <= x < |sh.owners| ==> sh.owners[x] == if x in xs then Some(t) else None
  }

  ghost predicate Stands(sh: Shared, x: int, version: nat) {
    Holds(sh, x) && sh.words[x] == version
  }

  ghost predicate Placed(sh: Shared, th: Thread) {
    && Stands(sh, th.node, th.versionNode)
    && match th.parent
       case None => th.node == sh.root
       case Some(p) => Stands(sh, p, th.versionParent)
  }

  function ParentOf(th: Thread): set<int> {
    if th.parent.Some? then {th.parent.value} else {}
  }

  /** All versions that the thread has read still stand. */
  ghost predicate SoloPc(sh: Shared, t: Tid, th: Thread) {
    match th.pc
    case Idle => true
    case ReadRoot => OnlyLocked(sh, t, {})
    case RootVersion => OnlyLocked(sh, t, {}) && th.node == sh.root && th.parent == None
    case RootCheck =>
      OnlyLocked(sh, t, {}) && th.node == sh.root && th.parent == None && Stands(sh, th.node, th.versionNode)
    case Visit | CheckParent | ReadChild | LockLeaf => OnlyLocked(sh, t, {}) && Placed(sh, th)
    case SplitLockParent => OnlyLocked(sh, t, {}) && Placed(sh, th) && th.parent.Some?
    case CheckInner | ChildVersion =>
      OnlyLocked(sh, t, {}) && th.parent.Some? && Stands(sh, th.parent.value, th.versionParent)
    case LeafParent =>
      && OnlyLocked(sh, t, {th.node}) && th.parent.Some? && th.parent.value != th.node
      && Stands(sh, th.parent.value, th.versionParent)
    case Store | UnlockDone => OnlyLocked(sh, t, {th.node})
    case SplitLockNode =>
      && OnlyLocked(sh, t, ParentOf(th)) && Stands(sh, th.node, th.versionNode) && th.node !in ParentOf(th)
      && (th.parent.None? ==> th.node == sh.root)
    case SplitRootCheck => OnlyLocked(sh, t, {th.node}) && th.node == sh.root && th.parent == None
    case Split | SplitUnlockNode => OnlyLocked(sh, t, ParentOf(th) + {th.node}) && th.node !in ParentOf(th)
    case UnlockParent => th.parent.Some? && OnlyLocked(sh, t, ParentOf(th))
    case LookupParent | LookupNode => OnlyLocked(sh, t, {}) && Placed(sh, th)
    case UnlockRestart => false
  }

  // ---- Locks ----

  lemma LockedMore(sh: Shared, t: Tid, xs: set<int>, x: nat)
    requires OnlyLocked(sh, t, xs) && x < |sh.owners|
    ensures OnlyLocked(Lock(sh, x, t), t, xs + {x})
    ensures forall y :: 0 <= y < |sh.words| && y != x ==> Lock(sh, x, t).words[y] == sh.words[y]
  {
  }

  lemma LockedLess(sh: Shared, t: Tid, xs: set<int>, x: nat)
    requires OnlyLocked(sh, t, xs) && x < |sh.owners|
    ensures OnlyLocked(Unlock(sh, x), t, xs - {x})
  {
  }

  /** A child is not its own parent. */
  lemma ChildDiffers(sh: Shared, p: nat, node: int, k: Key)
    requires TreeOk(sh.pages, sh.root) && Names(sh, p, node, k)
    ensures node != p
  {
    ChildForIn(sh.pages, sh.root, p, k);
  }

  // ---- Steps ----

  lemma SoloDescends(s: State, s': State, t: Tid, th: Thread, c: Choice)
    requires Inv(s) && At(s, t, th) && th.op.Insert? && SoloPc(s.sh, t, th) && Step(s, s', t, c)
    requires th.pc in {ReadRoot, RootVersion, RootCheck, ChildVersion}
    ensures t in s'.threads && s'.sh == s.sh && s'.threads[t].op == th.op && SoloPc(s'.sh, t, s'.threads[t])
    ensures s'.threads[t].pc !in {ReadRoot, SplitUnlockNode, UnlockParent}
  {
    if th.pc in {RootVersion, ChildVersion} {
      UnlockedIs(s.sh, th.node);
    }
  }

  lemma SoloVisits(s: State, s': State, t: Tid, th: Thread, c: Choice)
    requires Inv(s) && At(s, t, th) && th.op.Insert? && SoloPc(s.sh, t, th) && Step(s, s', t, c)
    requires th.pc in {Visit, CheckParent, ReadChild, CheckInner, LeafParent}
    ensures t in s'.threads && s'.sh == s.sh && s'.threads[t].op == th.op && SoloPc(s'.sh, t, s'.threads[t])
    ensures s'.threads[t].pc !in {ReadRoot, SplitUnlockNode, UnlockParent}
  {
  }

  lemma SoloLocks(s: State, s': State, t: Tid, th: Thread, c: Choice)
    requires Inv(s) && At(s, t, th) && th.op.Insert? && SoloPc(s.sh, t, th) && Step(s, s', t, c)
    requires th.pc in {LockLeaf, SplitLockParent, SplitLockNode, SplitRootCheck}
    ensures t in s'.threads && s'.sh.pages == s.sh.pages && s'.sh.root == s.sh.root && s'.threads[t].op == th.op
    ensures SoloPc(s'.sh, t, s'.threads[t]) && s'.threads[t].pc !in {ReadRoot, SplitUnlockNode, UnlockParent}
  {
    if th.pc == LockLeaf {
      LockedMore(s.sh, t, {}, th.node);
      if th.parent.Some? {
        ChildDiffers(s.sh, th.parent.value, th.node, th.op.key);
      }
    } else if th.pc == SplitLockParent {
      LockedMore(s.sh, t, {}, th.parent.value);
      ChildDiffers(s.sh, th.parent.value, th.node, th.op.key);
    } else if th.pc == SplitLockNode {
      LockedMore(s.sh, t, ParentOf(th), th.node);
    }
  }

  /** The steps after a page has been stored or split.  Only the last of them restarts. */
  lemma SoloUnlocks(s: State, s': State, t: Tid, th: Thread, c: Choice)
    requires Inv(s) && At(s, t, th) && th.op.Insert? && SoloPc(s.sh, t, th) && Step(s, s', t, c)
    requires th.pc in {UnlockDone, SplitUnlockNode, UnlockParent}
    ensures t in s'.threads && s'.sh.pages == s.sh.pages && s'.sh.root == s.sh.root && s'.threads[t].op == th.op
    ensures SoloPc(s'.sh, t, s'.threads[t]) && s'.threads[t].pc in {Idle, UnlockParent, ReadRoot}
    ensures s'.threads[t].pc == UnlockParent ==> th.pc == SplitUnlockNode
    ensures s'.threads[t].pc == Idle <==> th.pc == UnlockDone
  {
    if th.pc == SplitUnlockNode {
      LockedLess(s.sh, t, ParentOf(th) + {th.node}, th.node);
      assert ParentOf(th) + {th.node} - {th.node} == ParentOf(th);
    } else if th.pc == UnlockParent {
      LockedLess(s.sh, t, ParentOf(th), th.parent.value);
      assert ParentOf(th) - {th.parent.value} == {};
    }
  }

  lemma SoloStores(s: State, s': State, t: Tid, th: Thread, c: Choice)
    requires Inv(s) && At(s, t, th) && SoloPc(s.sh, t, th) && Step(s, s', t, c) && th.pc == Store
    ensures t in s'.threads && s'.threads[t].op == th.op
    ensures SoloPc(s'.sh, t, s'.threads[t]) && s'.threads[t].pc == UnlockDone
  {
  }

  lemma SplitLocked(sh: Shared, t: Tid, th: Thread, xs: set<int>)
    requires CanHalve(sh, th) && OnlyLocked(sh, t, xs)
    ensures OnlyLocked(AfterSplit(sh, th), t, xs)
  {
  }

  /** A split is of a page on the way to the key, in a level that was not split before. */
  lemma SplitSpares(sh: Shared, t: Tid, th: Thread, height: nat, split: set<nat>)
    requires TreeOk(sh.pages, sh.root) && ThreadOk(sh, t, th) && th.pc == Split && CanHalve(sh, th)
    requires height <= sh.pages[sh.root].level <= height + 1 && Spare(sh.pages, th.op.key, height, split)
    ensures var sh' := AfterSplit(sh, th); var level := sh.pages[th.node].level;
            && sh'.root < |sh'.pages| && height <= sh'.pages[sh'.root].level <= height + 1
            && level <= height && level !in split && Spare(sh'.pages, th.op.key, height, split + {level})
  {
    if th.parent.Some? {
      ChildForIn(sh.pages, sh.root, th.parent.value, th.op.key);
      OlcAlone.SplitLinks(sh.pages, sh.root, th.node, th.parent.value, th.op.key);
      SpareBelow(sh.pages, sh.root, th.op.key, height, split, th.node, th.parent.value);
    } else {
      SpareRoot(sh.pages, sh.root, th.op.key, height, split);
      SplitRootOk(sh.pages, sh.root);
    }
  }

  lemma SoloSplits(s: State, s': State, t: Tid, th: Thread, c: Choice)
    requires Inv(s) && At(s, t, th) && SoloPc(s.sh, t, th) && Step(s, s', t, c) && th.pc == Split
    ensures CanHalve(s.sh, th) && s'.sh == AfterSplit(s.sh, th)
    ensures t in s'.threads && s'.threads[t].op == th.op
    ensures SoloPc(s'.sh, t, s'.threads[t]) && s'.threads[t].pc == SplitUnlockNode
  {
    SplitLocked(s.sh, t, th, ParentOf(th) + {th.node});
  }

  // ---- Whole inserts ----

  /** The insert of `t` is under way or through.  After `n` restarts as many levels have been split, or one more
      if the thread is about to restart. */
  ghost predicate Solo(s: State, t: Tid, k: Key, height: nat, split: set<nat>, n: nat) {
    && t in s.threads && s.threads[t].op.Insert? && s.threads[t].op.key == k
    && SoloPc(s.sh, t, s.threads[t]) && split <= Levels(height)
    && |split| == (if s.threads[t].pc in {SplitUnlockNode, UnlockParent} then n + 1 else n)
    && (s.threads[t].pc !in {UnlockDone, Idle} ==>
          && s.sh.root < |s.sh.pages| && height <= s.sh.pages[s.sh.root].level <= height + 1
          && Spare(s.sh.pages, k, height, split))
  }

  function Restarted(s: State, t: Tid): nat {
    if t in s.threads && s.threads[t].pc == ReadRoot then 1 else 0
  }

  /** A step that leaves the pages as they are. */
  lemma SoloKept(s: State, s': State, t: Tid, k: Key, height: nat, split: set<nat>, n: nat)
    requires Solo(s, t, k, height, split, n) && t in s'.threads && s'.threads[t].op == s.threads[t].op
    requires SoloPc(s'.sh, t, s'.threads[t]) && s'.sh.pages == s.sh.pages && s'.sh.root == s.sh.root
    requires s.threads[t].pc in {UnlockDone, Idle} ==> s'.threads[t].pc == Idle
    requires if s.threads[t].pc in {SplitUnlockNode, UnlockParent} then s'.threads[t].pc in {UnlockParent, ReadRoot}
             else s'.threads[t].pc !in {ReadRoot, SplitUnlockNode, UnlockParent}
    ensures Solo(s', t, k, height, split, n + Restarted(s', t))
  {
  }

  lemma SoloReads(s: State, s': State, t: Tid, c: Choice, k: Key, height: nat, split: set<nat>, n: nat)
    requires Inv(s) && Solo(s, t, k, height, split, n) && Step(s, s', t, c)
    requires s.threads[t].pc in {ReadRoot, RootVersion, RootCheck, ChildVersion, Visit, CheckParent, ReadChild,
                                 CheckInner, LeafParent}
    ensures Solo(s', t, k, height, split, n + Restarted(s', t))
  {
    var th := s.threads[t];
    assert At(s, t, th);
    if th.pc in {ReadRoot, RootVersion, RootCheck, ChildVersion} {
      SoloDescends(s, s', t, th, c);
    } else {
      SoloVisits(s, s', t, th, c);
    }
    SoloKept(s, s', t, k, height, split, n);
  }

  lemma SoloWrites(s: State, s': State, t: Tid, c: Choice, k: Key, height: nat, split: set<nat>, n: nat)
    requires Inv(s) && Solo(s, t, k, height, split, n) && Step(s, s', t, c)
    requires s.threads[t].pc in {LockLeaf, SplitLockParent, SplitLockNode, SplitRootCheck, UnlockDone, SplitUnlockNode,
                                 UnlockParent}
    ensures Solo(s', t, k, height, split, n + Restarted(s', t))
  {
    var th := s.threads[t];
    assert At(s, t, th);
    if th.pc in {UnlockDone, SplitUnlockNode, UnlockParent} {
      SoloUnlocks(s, s', t, th, c);
    } else {
      SoloLocks(s, s', t, th, c);
    }
    SoloKept(s, s', t, k, height, split, n);
  }

  lemma SoloStoring(s: State, s': State, t: Tid, c: Choice, k: Key, height: nat, split: set<nat>, n: nat)
    requires Inv(s) && Solo(s, t, k, height, split, n) && Step(s, s', t, c) && s.threads[t].pc == Store
    ensures Solo(s', t, k, height, split, n + Restarted(s', t))
  {
    assert At(s, t, s.threads[t]);
    SoloStores(s, s', t, s.threads[t], c);
  }

  lemma SoloSplitting(s: State, s': State, t: Tid, c: Choice, k: Key, height: nat, split: set<nat>, n: nat)
    requires Inv(s) && Solo(s, t, k, height, split, n) && Step(s, s', t, c) && s.threads[t].pc == Split
    ensures Solo(s', t, k, height, split + {s.sh.pages[s.threads[t].node].level}, n + Restarted(s', t))
  {
    var th := s.threads[t];
    assert At(s, t, th);
    SoloSplits(s, s', t, th, c);
    SplitSpares(s.sh, t, th, height, split);
    assert |split + {s.sh.pages[th.node].level}| == n + 1;
  }

  lemma SoloStep(s: State, s': State, t: Tid, c: Choice, k: Key, height: nat, split: set<nat>, n: nat)
    returns (more: set<nat>)
    requires Inv(s) && Solo(s, t, k, height, split, n) && s.threads[t].pc != Idle && Step(s, s', t, c)
    ensures Solo(s', t, k, height, more, n + Restarted(s', t))
  {
    more := split;
    if s.threads[t].pc == Store {
      SoloStoring(s, s', t, c, k, height, split, n);
    } else if s.threads[t].pc == Split {
      SoloSplitting(s, s', t, c, k, height, split, n);
      more := split + {s.sh.pages[s.threads[t].node].level};
    } else if s.threads[t].pc in {LockLeaf, SplitLockParent, SplitLockNode, SplitRootCheck, UnlockDone,
                                  SplitUnlockNode, UnlockParent} {
      SoloWrites(s, s', t, c, k, height, split, n);
    } else {
      SoloReads(s, s', t, c, k, height, split, n);
    }
  }

  /** One state comes from the other by a step of `t`. */
  ghost predicate StepOf(s: State, s': State, t: Tid) {
    t in s.threads && exists c :: Step(s, s', t, c)
  }

  ghost predicate SteppedBy(run: seq<State>, i: nat, t: Tid) {
    i + 1 < |run| && StepOf(run[i], run[i + 1], t)
  }

  /** The step is one of `t` in the course of an operation. */
  ghost predicate Works(run: seq<State>, i: nat, t: Tid) {
    SteppedBy(run, i, t) && run[i].threads[t].pc != Idle
  }

  /** How often `t` goes back to the root after state `b`, up to state `i`. */
  function Restarts(run: seq<State>, t: Tid, b: nat, i: nat): nat
    requires i < |run|
  {
    if i <= b then 0 else Restarts(run, t, b, i - 1) + Restarted(run[i], t)
  }

  lemma SoloNext(s: State, s': State, t: Tid, k: Key, height: nat, split: set<nat>, n: nat) returns (more: set<nat>)
    requires Inv(s) && Solo(s, t, k, height, split, n) && StepOf(s, s', t) && s.threads[t].pc != Idle
    ensures Solo(s', t, k, height, more, n + Restarted(s', t))
  {
    var c :| Step(s, s', t, c);
    more := SoloStep(s, s', t, c, k, height, split, n);
  }

  /** From state `b` to state `i` only `t` moves, in the course of an operation. */
  ghost predicate WorksAlone(run: seq<State>, b: nat, i: nat, t: Tid) {
    b <= i < |run| && forall j: nat {:trigger Works(run, j, t)} :: b <= j < i ==> Works(run, j, t)
  }

  lemma SoloIn(run: seq<State>, b: nat, i: nat, j: nat, t: Tid, k: Key, height: nat, split: set<nat>, r: nat)
    returns (more: set<nat>)
    requires Run(run) && WorksAlone(run, b, i, t) && b <= j < i && Solo(run[j], t, k, height, split, r)
    ensures Solo(run[j + 1], t, k, height, more, r + Restarted(run[j + 1], t))
  {
    InvRun(run, j);
    assert Works(run, j, t);
    more := SoloNext(run[j], run[j + 1], t, k, height, split, r);
  }

  /** After as many restarts as there have been since state `b`, the insert is still undisturbed. */
  lemma {:induction false} SoloRun(run: seq<State>, b: nat, i: nat, j: nat, t: Tid, k: Key, height: nat)
    returns (split: set<nat>)
    requires Run(run) && WorksAlone(run, b, i, t) && b <= j <= i && Solo(run[b], t, k, height, {}, 0)
    ensures Solo(run[j], t, k, height, split, Restarts(run, t, b, j))
  {
    if b == j {
      split := {};
    } else {
      split := SoloRun(run, b, i, j - 1, t, k, height);
      split := SoloIn(run, b, i, j - 1, t, k, height, split, Restarts(run, t, b, j - 1));
    }
  }

  /** In every run, from every moment at which no page is locked: an insert that is called then, and during which
      only its own thread moves, restarts at most once for every level the tree has at the call. */
  lemma LoneInsert(run: seq<State>, b: nat, i: nat, t: Tid)
    requires Run(run) && b < i < |run| && t in run[b].threads && run[b].threads[t].pc == Idle
    requires OnlyLocked(run[b].sh, t, {})
    requires SteppedBy(run, b, t) && WorksAlone(run, b + 1, i, t)
    requires t in run[b + 1].threads && run[b + 1].threads[t].op.Insert?
    ensures run[b].sh.root < |run[b].sh.pages|
    ensures Restarts(run, t, b + 1, i) <= run[b].sh.pages[run[b].sh.root].level + 1
  {
    InvRun(run, b);
    InvRun(run, b + 1);
    var height, k := run[b].sh.pages[run[b].sh.root].level, run[b + 1].threads[t].op.key;
    LevelsBelow(run[b].sh.pages, run[b].sh.root);
    assert Solo(run[b + 1], t, k, height, {}, 0);
    var split := SoloRun(run, b + 1, i, i, t, k, height);
    SoloFew(run[i], t, k, height, split, Restarts(run, t, b + 1, i));
  }

  lemma SoloFew(s: State, t: Tid, k: Key, height: nat, split: set<nat>, r: nat)
    requires Solo(s, t, k, height, split, r)
    ensures r <= height + 1
  {
    FewLevels(split, Levels(height));
  }

  /** No page stands above the root. */
  lemma LevelsBelow(pages: seq<Page>, root: nat)
    requires TreeOk(pages, root)
    ensures root < |pages| && forall x :: 0 <= x < |pages| ==> pages[x].level <= pages[root].level
  {
  }
}
