/** How long an operation takes that nobody disturbs, in any run of the machine: a lookup never goes back to the root,
    and both kinds end after a number of steps that the height of the tree tells. */
module OlcSteps {
  import opened Options
  import opened OlcNodes
  import opened Slots
  import opened OlcTree
  import opened OlcMachine
  import opened OlcProof
  import opened OlcAlone
  import opened OlcSolo

  function Level(sh: Shared, x: int): nat {
    if 0 <= x < |sh.pages| then sh.pages[x].level else 0
  }

  /** The most steps until the operation is over or goes back to the root. */
  function Round(sh: Shared, th: Thread): int {
    var above := if th.parent.Some? then Level(sh, th.parent.value) else 0;
    match th.pc
    case Idle => 0
    case ReadRoot => 5 * Level(sh, sh.root) + 10
    case RootVersion => 5 * Level(sh, sh.root) + 9
    case RootCheck => 5 * Level(sh, sh.root) + 8
    case Visit => 5 * Level(sh, th.node) + 7
    case CheckParent => 5 * Level(sh, th.node) + 6
    case ReadChild => 5 * Level(sh, th.node) + 5
    case CheckInner => 5 * above + 4
    case ChildVersion => 5 * above + 3
    case SplitLockParent => 6
    case SplitLockNode => 5
    case SplitRootCheck => 4
    case Split => 3
    case SplitUnlockNode => 2
    case UnlockParent => 1
    case LockLeaf => 4
    case LeafParent => 3
    case Store => 2
    case UnlockDone => 1
    case LookupParent => 2
    case LookupNode => 1
    case UnlockRestart => 1
  }

  /** The operation is over, or nearer to its end, or back at the root after a split. */
  predicate Nearer(sh: Shared, th: Thread, sh': Shared, th': Thread) {
    || th'.pc == Idle
    || Round(sh', th') < Round(sh, th)
    || (th'.pc == ReadRoot && th.pc in {SplitUnlockNode, UnlockParent})
  }

  /** The steps of a lookup, and of an insert on its way down. */
  predicate Looks(pc: Pc) {
    pc in {ReadRoot, RootVersion, RootCheck, Visit, CheckParent, ReadChild, CheckInner, ChildVersion, LookupParent,
           LookupNode}
  }

  lemma StartNearer(s: State, s': State, t: Tid, th: Thread, c: Choice)
    requires Inv(s) && At(s, t, th) && SoloPc(s.sh, t, th) && Step(s, s', t, c)
    requires th.pc in {ReadRoot, RootVersion, RootCheck}
    ensures t in s'.threads && Nearer(s.sh, th, s'.sh, s'.threads[t])
  {
    if th.pc == RootVersion {
      UnlockedIs(s.sh, th.node);
    }
  }

  lemma VersionNearer(s: State, s': State, t: Tid, th: Thread, c: Choice)
    requires Inv(s) && At(s, t, th) && SoloPc(s.sh, t, th) && Step(s, s', t, c) && th.pc == ChildVersion
    ensures t in s'.threads && Nearer(s.sh, th, s'.sh, s'.threads[t])
  {
    UnlockedIs(s.sh, th.node);
    ChildForIn(s.sh.pages, s.sh.root, th.parent.value, th.op.key);
  }

  lemma VisitNearer(s: State, s': State, t: Tid, th: Thread, c: Choice)
    requires Inv(s) && At(s, t, th) && SoloPc(s.sh, t, th) && Step(s, s', t, c) && th.pc in {Visit, CheckParent}
    ensures t in s'.threads && Nearer(s.sh, th, s'.sh, s'.threads[t])
  {
  }

  lemma ChildNearer(s: State, s': State, t: Tid, th: Thread, c: Choice)
    requires Inv(s) && At(s, t, th) && SoloPc(s.sh, t, th) && Step(s, s', t, c)
    requires th.pc in {ReadChild, CheckInner, LeafParent, LookupParent, LookupNode}
    ensures t in s'.threads && Nearer(s.sh, th, s'.sh, s'.threads[t])
  {
  }

  lemma LockNearer(s: State, s': State, t: Tid, th: Thread, c: Choice)
    requires Inv(s) && At(s, t, th) && SoloPc(s.sh, t, th) && Step(s, s', t, c)
    requires th.pc in {LockLeaf, SplitLockParent, SplitLockNode}
    ensures t in s'.threads && Nearer(s.sh, th, s'.sh, s'.threads[t])
  {
  }

  lemma WriteNearer(s: State, s': State, t: Tid, th: Thread, c: Choice)
    requires Inv(s) && At(s, t, th) && SoloPc(s.sh, t, th) && Step(s, s', t, c)
    requires th.pc in {SplitRootCheck, Split, Store}
    ensures t in s'.threads && Nearer(s.sh, th, s'.sh, s'.threads[t])
  {
  }

  lemma UnlockNearer(s: State, s': State, t: Tid, th: Thread, c: Choice)
    requires Inv(s) && At(s, t, th) && SoloPc(s.sh, t, th) && Step(s, s', t, c)
    requires th.pc in {UnlockDone, SplitUnlockNode, UnlockParent}
    ensures t in s'.threads && Nearer(s.sh, th, s'.sh, s'.threads[t])
  {
  }

  lemma ReadNearer(s: State, s': State, t: Tid, th: Thread, c: Choice)
    requires Inv(s) && At(s, t, th) && SoloPc(s.sh, t, th) && Step(s, s', t, c)
    requires Looks(th.pc) || th.pc == LeafParent
    ensures t in s'.threads && Nearer(s.sh, th, s'.sh, s'.threads[t])
  {
    if th.pc in {ReadRoot, RootVersion, RootCheck} {
      StartNearer(s, s', t, th, c);
    } else if th.pc == ChildVersion {
      VersionNearer(s, s', t, th, c);
    } else if th.pc in {Visit, CheckParent} {
      VisitNearer(s, s', t, th, c);
    } else {
      ChildNearer(s, s', t, th, c);
    }
  }

  lemma StepNearer(s: State, s': State, t: Tid, c: Choice)
    requires Inv(s) && t in s.threads && SoloPc(s.sh, t, s.threads[t]) && Step(s, s', t, c) && s.threads[t].pc != Idle
    ensures t in s'.threads && Nearer(s.sh, s.threads[t], s'.sh, s'.threads[t])
  {
    var th := s.threads[t];
    assert At(s, t, th);
    if Looks(th.pc) || th.pc == LeafParent {
      ReadNearer(s, s', t, th, c);
    } else if th.pc in {LockLeaf, SplitLockParent, SplitLockNode} {
      LockNearer(s, s', t, th, c);
    } else if th.pc in {SplitRootCheck, Split, Store} {
      WriteNearer(s, s', t, th, c);
    } else {
      UnlockNearer(s, s', t, th, c);
    }
  }

  lemma InNearer(run: seq<State>, b: nat, i: nat, j: nat, t: Tid)
    requires Run(run) && WorksAlone(run, b, i, t) && b <= j < i && t in run[j].threads
    requires SoloPc(run[j].sh, t, run[j].threads[t])
    ensures t in run[j + 1].threads && Nearer(run[j].sh, run[j].threads[t], run[j + 1].sh, run[j + 1].threads[t])
    ensures run[j].threads[t].pc != Idle
  {
    InvRun(run, j);
    assert Works(run, j, t);
    var c :| Step(run[j], run[j + 1], t, c);
    StepNearer(run[j], run[j + 1], t, c);
  }

  lemma RoundPositive(sh: Shared, th: Thread)
    requires th.pc != Idle && (th.parent.None? ==> th.pc != CheckInner)
    ensures Round(sh, th) > 0
  {
  }

  // ---- Inserts ----

  /** The most steps in one round. */
  function MostInRound(height: nat): nat {
    5 * (height + 1) + 10
  }

  /** The most steps that are left, after `r` restarts. */
  function Left(s: State, t: Tid, height: nat, r: nat): int
    requires t in s.threads
  {
    (height + 1 - r) * (MostInRound(height) + 1) + Round(s.sh, s.threads[t])
  }

  /** What is known of the root: it is no more than one level above the height at the call. */
  ghost predicate RootAt(s: State, height: nat) {
    s.sh.root < |s.sh.pages| && s.sh.pages[s.sh.root].level <= height + 1
  }

  lemma LeftDrops(s: State, s': State, t: Tid, height: nat, r: nat)
    requires t in s.threads && t in s'.threads && Nearer(s.sh, s.threads[t], s'.sh, s'.threads[t])
    requires s'.threads[t].pc == ReadRoot ==> RootAt(s', height)
    requires s.threads[t].pc != ReadRoot && Round(s.sh, s.threads[t]) >= 0
    ensures s'.threads[t].pc == Idle || Left(s', t, height, r + Restarted(s', t)) < Left(s, t, height, r)
  {
    var most := MostInRound(height);
    if s'.threads[t].pc == ReadRoot {
      assert Round(s'.sh, s'.threads[t]) <= most;
      assert (height + 1 - r) * (most + 1) == (height + 1 - (r + 1)) * (most + 1) + most + 1;
    }
  }

  lemma LeftStarts(s: State, s': State, t: Tid, height: nat, r: nat)
    requires t in s.threads && t in s'.threads && Nearer(s.sh, s.threads[t], s'.sh, s'.threads[t])
    requires s.threads[t].pc == ReadRoot && s'.threads[t].pc != ReadRoot
    ensures s'.threads[t].pc == Idle || Left(s', t, height, r + Restarted(s', t)) < Left(s, t, height, r)
  {
  }

  lemma LeftIn(run: seq<State>, b: nat, i: nat, j: nat, t: Tid, k: Key, height: nat, split: set<nat>, r: nat)
    requires Run(run) && WorksAlone(run, b, i, t) && b <= j < i && Solo(run[j], t, k, height, split, r)
    ensures t in run[j].threads && t in run[j + 1].threads
    ensures run[j + 1].threads[t].pc == Idle ||
            Left(run[j + 1], t, height, r + Restarted(run[j + 1], t)) < Left(run[j], t, height, r)
  {
    InNearer(run, b, i, j, t);
    RootIn(run, b, i, j, t, k, height, split, r);
    if run[j].threads[t].pc == ReadRoot {
      LeftStarts(run[j], run[j + 1], t, height, r);
    } else {
      RoundPositive(run[j].sh, run[j].threads[t]);
      LeftDrops(run[j], run[j + 1], t, height, r);
    }
  }

  lemma RootIn(run: seq<State>, b: nat, i: nat, j: nat, t: Tid, k: Key, height: nat, split: set<nat>, r: nat)
    requires Run(run) && WorksAlone(run, b, i, t) && b <= j < i && Solo(run[j], t, k, height, split, r)
    ensures t in run[j + 1].threads
    ensures run[j + 1].threads[t].pc == ReadRoot ==> RootAt(run[j + 1], height) && run[j].threads[t].pc != ReadRoot
  {
    var more := SoloIn(run, b, i, j, t, k, height, split, r);
    assert Works(run, j, t);
  }

  lemma StillWorks(run: seq<State>, b: nat, i: nat, j: nat, t: Tid)
    requires WorksAlone(run, b, i, t) && b <= j < i
    ensures t in run[j].threads && run[j].threads[t].pc != Idle
  {
    assert Works(run, j, t);
  }

  lemma LeftAt(run: seq<State>, b: nat, i: nat, j: nat, t: Tid, k: Key, height: nat)
    requires Run(run) && WorksAlone(run, b, i, t) && b <= j && j + 1 < i && Solo(run[b], t, k, height, {}, 0)
    ensures t in run[j].threads && t in run[j + 1].threads
    ensures Left(run[j + 1], t, height, Restarts(run, t, b, j + 1)) < Left(run[j], t, height, Restarts(run, t, b, j))
  {
    StillWorks(run, b, i, j + 1, t);
    var split := SoloRun(run, b, i, j, t, k, height);
    LeftIn(run, b, i, j, t, k, height, split, Restarts(run, t, b, j));
  }

  lemma {:induction false} InsertNearer(run: seq<State>, b: nat, i: nat, j: nat, t: Tid, k: Key, height: nat)
    requires Run(run) && WorksAlone(run, b, i, t) && b <= j < i && Solo(run[b], t, k, height, {}, 0)
    ensures t in run[j].threads && t in run[b].threads
    ensures Left(run[j], t, height, Restarts(run, t, b, j)) <= Left(run[b], t, height, 0) - (j - b)
  {
    StillWorks(run, b, i, b, t);
    StillWorks(run, b, i, j, t);
    if b < j {
      InsertNearer(run, b, i, j - 1, t, k, height);
      LeftAt(run, b, i, j - 1, t, k, height);
    }
  }

  lemma FewRestarts(run: seq<State>, b: nat, i: nat, j: nat, t: Tid, k: Key, height: nat)
    requires Run(run) && WorksAlone(run, b, i, t) && b <= j <= i && Solo(run[b], t, k, height, {}, 0)
    ensures Restarts(run, t, b, j) <= height + 1
  {
    var split := SoloRun(run, b, i, j, t, k, height);
    SoloFew(run[j], t, k, height, split, Restarts(run, t, b, j));
  }

  lemma RoundsLeft(more: nat, most: nat)
    ensures more * most >= 0
  {
  }

  lemma LeftPositive(s: State, t: Tid, height: nat, r: nat)
    requires t in s.threads && s.threads[t].pc != Idle && r <= height + 1
    requires s.threads[t].parent.None? ==> s.threads[t].pc != CheckInner
    ensures Left(s, t, height, r) > 0
  {
    RoundPositive(s.sh, s.threads[t]);
    RoundsLeft(height + 1 - r, MostInRound(height) + 1);
  }

  lemma HasParent(run: seq<State>, i: nat, t: Tid)
    requires Run(run) && i < |run| && t in run[i].threads
    ensures run[i].threads[t].parent.None? ==> run[i].threads[t].pc != CheckInner
  {
    InvRun(run, i);
    assert ThreadOk(run[i].sh, t, run[i].threads[t]);
  }

  lemma InsertLeft(run: seq<State>, b: nat, i: nat, t: Tid, k: Key, height: nat)
    requires Run(run) && WorksAlone(run, b, i, t) && b < i && Solo(run[b], t, k, height, {}, 0)
    ensures t in run[b].threads && i - b <= Left(run[b], t, height, 0)
  {
    StillWorks(run, b, i, i - 1, t);
    FewRestarts(run, b, i, i - 1, t, k, height);
    HasParent(run, i - 1, t);
    LeftPositive(run[i - 1], t, height, Restarts(run, t, b, i - 1));
    InsertNearer(run, b, i, i - 1, t, k, height);
  }

  lemma SoloStarts(run: seq<State>, b: nat, t: Tid)
    requires Run(run) && b + 1 < |run| && t in run[b].threads && run[b].threads[t].pc == Idle
    requires OnlyLocked(run[b].sh, t, {}) && SteppedBy(run, b, t)
    requires t in run[b + 1].threads && run[b + 1].threads[t].op.Insert?
    ensures run[b].sh.root < |run[b].sh.pages| && run[b + 1].sh == run[b].sh && run[b + 1].threads[t].pc == ReadRoot
    ensures Solo(run[b + 1], t, run[b + 1].threads[t].op.key, run[b].sh.pages[run[b].sh.root].level, {}, 0)
  {
    InvRun(run, b);
    LevelsBelow(run[b].sh.pages, run[b].sh.root);
  }

  /** In every run, from every moment at which no page is locked: an insert that is called then, and during which only
      its own thread moves, is over after a number of steps that the height of the tree at the call tells. */
  lemma LoneInsertEnds(run: seq<State>, b: nat, i: nat, t: Tid)
    requires Run(run) && b + 1 < i < |run| && t in run[b].threads && run[b].threads[t].pc == Idle
    requires OnlyLocked(run[b].sh, t, {}) && SteppedBy(run, b, t) && WorksAlone(run, b + 1, i, t)
    requires t in run[b + 1].threads && run[b + 1].threads[t].op.Insert?
    ensures run[b].sh.root < |run[b].sh.pages|
    ensures var height := run[b].sh.pages[run[b].sh.root].level; i - b <= (height + 2) * (MostInRound(height) + 1)
  {
    SoloStarts(run, b, t);
    var height := run[b].sh.pages[run[b].sh.root].level;
    InsertLeft(run, b + 1, i, t, run[b + 1].threads[t].op.key, height);
    var most := MostInRound(height) + 1;
    assert (height + 2) * most == (height + 1) * most + most;
  }

  // ---- Lookups ----

  /** A lookup that nobody disturbs, under way or over. */
  ghost predicate LooksAlone(s: State, t: Tid) {
    && t in s.threads && s.threads[t].op.Lookup? && SoloPc(s.sh, t, s.threads[t])
    && (s.threads[t].pc == Idle || Looks(s.threads[t].pc))
  }

  lemma LookStarts(s: State, s': State, t: Tid, th: Thread, c: Choice)
    requires Inv(s) && At(s, t, th) && th.op.Lookup? && SoloPc(s.sh, t, th) && Step(s, s', t, c)
    requires th.pc in {ReadRoot, RootVersion, RootCheck, ChildVersion}
    ensures LooksAlone(s', t) && s'.sh == s.sh && s'.threads[t].pc !in {Idle, ReadRoot}
  {
    if th.pc in {RootVersion, ChildVersion} {
      UnlockedIs(s.sh, th.node);
    }
  }

  lemma LookVisits(s: State, s': State, t: Tid, th: Thread, c: Choice)
    requires Inv(s) && At(s, t, th) && th.op.Lookup? && SoloPc(s.sh, t, th) && Step(s, s', t, c) && th.pc == Visit
    ensures LooksAlone(s', t) && s'.sh == s.sh && s'.threads[t].pc != ReadRoot
  {
  }

  lemma LookChecks(s: State, s': State, t: Tid, th: Thread, c: Choice)
    requires Inv(s) && At(s, t, th) && th.op.Lookup? && SoloPc(s.sh, t, th) && Step(s, s', t, c)
    requires th.pc == CheckParent
    ensures LooksAlone(s', t) && s'.sh == s.sh && s'.threads[t].pc != ReadRoot
  {
  }

  lemma LookDescends(s: State, s': State, t: Tid, th: Thread, c: Choice)
    requires Inv(s) && At(s, t, th) && th.op.Lookup? && SoloPc(s.sh, t, th) && Step(s, s', t, c)
    requires th.pc in {ReadChild, CheckInner}
    ensures LooksAlone(s', t) && s'.sh == s.sh && s'.threads[t].pc != ReadRoot
  {
  }

  lemma LookEnds(s: State, s': State, t: Tid, th: Thread, c: Choice)
    requires Inv(s) && At(s, t, th) && th.op.Lookup? && SoloPc(s.sh, t, th) && Step(s, s', t, c)
    requires th.pc in {LookupParent, LookupNode}
    ensures LooksAlone(s', t) && s'.sh == s.sh && s'.threads[t].pc != ReadRoot
  {
  }

  lemma LookStep(run: seq<State>, b: nat, i: nat, j: nat, t: Tid)
    requires Run(run) && WorksAlone(run, b, i, t) && b <= j < i && LooksAlone(run[j], t)
    ensures LooksAlone(run[j + 1], t) && run[j + 1].sh == run[j].sh && run[j + 1].threads[t].pc != ReadRoot
  {
    InvRun(run, j);
    assert Works(run, j, t);
    var c :| Step(run[j], run[j + 1], t, c);
    var th := run[j].threads[t];
    assert At(run[j], t, th);
    if th.pc in {ReadRoot, RootVersion, RootCheck, ChildVersion} {
      LookStarts(run[j], run[j + 1], t, th, c);
    } else if th.pc == Visit {
      LookVisits(run[j], run[j + 1], t, th, c);
    } else if th.pc == CheckParent {
      LookChecks(run[j], run[j + 1], t, th, c);
    } else if th.pc in {ReadChild, CheckInner} {
      LookDescends(run[j], run[j + 1], t, th, c);
    } else {
      LookEnds(run[j], run[j + 1], t, th, c);
    }
  }

  lemma {:induction false} LookRun(run: seq<State>, b: nat, i: nat, j: nat, t: Tid)
    requires Run(run) && WorksAlone(run, b, i, t) && b <= j <= i && LooksAlone(run[b], t)
    ensures LooksAlone(run[j], t) && run[j].sh == run[b].sh && (b < j ==> run[j].threads[t].pc != ReadRoot)
  {
    if b < j {
      LookRun(run, b, i, j - 1, t);
      LookStep(run, b, i, j - 1, t);
    }
  }

  lemma {:induction false} LookNearer(run: seq<State>, b: nat, i: nat, j: nat, t: Tid)
    requires Run(run) && WorksAlone(run, b, i, t) && b <= j < i && LooksAlone(run[b], t)
    ensures LooksAlone(run[j], t)
    ensures 0 < Round(run[j].sh, run[j].threads[t]) <= Round(run[b].sh, run[b].threads[t]) - (j - b)
  {
    LookRun(run, b, i, j, t);
    StillWorks(run, b, i, j, t);
    RoundPositive(run[j].sh, run[j].threads[t]);
    if b < j {
      LookNearer(run, b, i, j - 1, t);
      InNearer(run, b, i, j - 1, t);
    }
  }

  /** A lookup that is called when no page is locked, and during which only its own thread moves, never goes back to the
      root, and is over after a number of steps that the height of the tree tells. */
  lemma LoneLookup(run: seq<State>, b: nat, i: nat, t: Tid)
    requires Run(run) && b + 1 < i < |run| && t in run[b].threads && run[b].threads[t].pc == Idle
    requires OnlyLocked(run[b].sh, t, {}) && SteppedBy(run, b, t) && WorksAlone(run, b + 1, i, t)
    requires t in run[b + 1].threads && run[b + 1].threads[t].op.Lookup?
    ensures t in run[i].threads && run[i].threads[t].pc != ReadRoot
    ensures run[b].sh.root < |run[b].sh.pages|
    ensures i - b <= 5 * run[b].sh.pages[run[b].sh.root].level + 11
  {
    InvRun(run, b);
    assert LooksAlone(run[b + 1], t) && run[b + 1].sh == run[b].sh && run[b + 1].threads[t].pc == ReadRoot;
    LookRun(run, b + 1, i, i, t);
    LookNearer(run, b + 1, i, i - 1, t);
  }
}
