/** The invariant of TL2: which values the transactions have seen, what lock holders may still
    commit, and where committed stores are between the write-set and memory. */
module Tl2Invariant {
  import opened Options
  import opened Tl2Log
  import opened Tl2Machine
  import opened Tl2Structure
  import opened Tl2Effects
  import opened Tl2History

  // ---- Reads ----

  /** All of `seen` was in memory as of version `rv`. */
  ghost predicate SeenOk(s: State, rv: nat, seen: map<Addr, Val>) {
    forall a :: a in seen ==> seen[a] == ValueAt(s.mem0, s.done, rv, a)
  }

  /** Whoever holds a stripe of `seen` commits above version `n`, if at all. */
  ghost predicate Guarded(s: State, seen: map<Addr, Val>, n: nat)
    requires |s.locks| == TABSZ
  {
    forall a :: a in seen ==> OwnerAbove(s, PsLock(a), n, |s.threads|)
  }

  lemma GuardedStep(s: State, s': State, t: Tid, seen: map<Addr, Val>, n: nat)
    requires |s.locks| == |s'.locks| == TABSZ && |s'.threads| == |s.threads|
    requires Effect(s, s', t) && Guarded(s, seen, n) && n <= s.clock
    ensures Guarded(s', seen, n)
  {
    forall a | a in seen ensures OwnerAbove(s', PsLock(a), n, |s'.threads|) {
      OwnerAboveStep(s, s', t, PsLock(a), n, |s.threads|);
    }
  }

  /** A stripe that a committing thread writes is one that it holds. */
  lemma CommitOwns(s: State, s': State, t: Tid, a: Addr)
    requires Structure(s) && Commits(s, s', t)
    requires LastStore(s.threads[t].wrSet.entries, a).Some?
    ensures s.locks[PsLock(a)].Locked? && s.locks[PsLock(a)].owner == t
  {
    var T := s.threads[t];
    assert ThreadOk(s.clock, s.locks, t, T);
    LastStoreFound(T.wrSet.entries, a);
    var i :| 0 <= i < |T.wrSet.entries| && T.wrSet.entries[i].addr == a;
    assert Covered(s.locks, t, T.wrSet.entries, i);
  }

  /** The history grows by at most one record, and that wrote something only if `t` committed. */
  lemma DoneGrows(s: State, s': State, t: Tid)
    requires Effect(s, s', t)
    ensures s'.mem0 == s.mem0
    ensures s'.done == s.done || exists r :: s'.done == s.done + [r]
    ensures s'.done != s.done && !Commits(s, s', t) ==> exists r :: s'.done == s.done + [r] && !r.outcome.Committed?
  {
    if Commits(s, s', t) {
      assert s'.done == s.done + [s'.done[|s.done|]];
    } else if Ends(s, s', t) {
      assert s'.done == s.done + [s'.done[|s.done|]] && !s'.done[|s.done|].outcome.Committed?;
    } else {
      assert s'.done == s.done;
    }
  }

  /** What has been seen stays what was in memory as of `rv`: nobody commits below a reader. */
  lemma SeenStep(s: State, s': State, t: Tid, rv: nat, seen: map<Addr, Val>)
    requires Structure(s) && Effect(s, s', t)
    requires SeenOk(s, rv, seen) && Guarded(s, seen, rv)
    ensures SeenOk(s', rv, seen)
  {
    DoneGrows(s, s', t);
    if s'.done != s.done {
      forall a | a in seen ensures seen[a] == ValueAt(s'.mem0, s'.done, rv, a) {
        var r :| s'.done == s.done + [r];
        ValueAtAppend(s.mem0, s.done, r, rv, a);
        if Commits(s, s', t) && Wrote(r, a).Some? {
          assert r == s'.done[|s.done|];
          CommitOwns(s, s', t, a);
        } else {
          assert !Commits(s, s', t) ==> Wrote(s'.done[|s.done|], a).None?;
        }
      }
    }
  }

  // ---- Memory ----

  /** The store to `a` that a committed transaction has yet to write back. */
  ghost function Pending(s: State, a: Addr): Option<Val>
    requires |s.locks| == TABSZ
  {
    match s.locks[PsLock(a)]
    case Version(_) => None
    case Locked(o, _) =>
      if o < |s.threads| && s.threads[o].pc.WriteBack? && s.threads[o].pc.i <= |s.threads[o].wrSet.entries|
      then LastStore(s.threads[o].wrSet.entries[s.threads[o].pc.i..], a) else None
  }

  ghost predicate MemOkAt(s: State, a: Addr)
    requires |s.locks| == TABSZ
  {
    (if Pending(s, a).Some? then Pending(s, a).value else Get(s.mem, a)) == ValueAt(s.mem0, s.done, s.clock, a)
  }

  lemma MemWriteBack(s: State, s': State, t: Tid, a: Addr)
    requires Structure(s) && WritesBack(s, s', t) && MemOkAt(s, a)
    ensures MemOkAt(s', a)
  {
    var T := s.threads[t];
    var es, i := T.wrSet.entries, T.pc.i;
    assert ThreadOk(s.clock, s.locks, t, T);
    assert Covered(s.locks, t, es, i);
    assert es[i..][1..] == es[i + 1..];
    if s.locks[PsLock(a)].Locked? && s.locks[PsLock(a)].owner != t {
      assert es[i].addr != a;
    }
  }

  lemma MemCommit(s: State, s': State, t: Tid, a: Addr)
    requires Structure(s) && Commits(s, s', t) && MemOkAt(s, a)
    ensures MemOkAt(s', a)
  {
    var T := s.threads[t];
    var r := s'.done[|s.done|];
    assert ThreadOk(s.clock, s.locks, t, T);
    ValueAtAppend(s.mem0, s.done, r, s.clock, a);
    assert T.wrSet.entries[0..] == T.wrSet.entries;
    if Wrote(r, a).Some? {
      CommitOwns(s, s', t, a);
    }
  }

  lemma MemClock(s: State, s': State, t: Tid, wv: nat, a: Addr)
    requires |s.locks| == TABSZ && GetsVersion(s, s', t, wv) && MemOkAt(s, a)
    requires forall d :: 0 <= d < |s.done| && s.done[d].outcome.Committed? ==> s.done[d].outcome.wv <= s.clock
    ensures MemOkAt(s', a)
  {
    ValueAtAgree(s.mem0, s.done, s.clock, s'.clock, a);
  }

  lemma MemQuiet(s: State, s': State, t: Tid, a: Addr)
    requires Structure(s) && MemOkAt(s, a)
    requires Quiet(s, s', t)
    ensures MemOkAt(s', a)
  {
    var T := s.threads[t];
    assert ThreadOk(s.clock, s.locks, t, T);
    if T.pc.WriteBack? {
      assert T.wrSet.entries[T.pc.i..] == [];
    }
  }

  lemma MemBegin(s: State, s': State, t: Tid, a: Addr)
    requires Structure(s) && MemOkAt(s, a) && Begins(s, s', t)
    ensures MemOkAt(s', a)
  {
    if s.locks[PsLock(a)].Locked? {
      OwnerHolds(s, PsLock(a));
    }
  }

  lemma MemTake(s: State, s': State, t: Tid, i: nat, rdv: nat, a: Addr)
    requires |s.locks| == TABSZ && MemOkAt(s, a) && Takes(s, s', t, i, rdv)
    ensures MemOkAt(s', a)
  {
  }

  lemma MemGive(s: State, s': State, t: Tid, i: nat, a: Addr)
    requires |s.locks| == TABSZ && MemOkAt(s, a) && Gives(s, s', t, i)
    ensures MemOkAt(s', a)
  {
  }

  lemma MemEnd(s: State, s': State, t: Tid, a: Addr)
    requires Structure(s) && MemOkAt(s, a) && Ends(s, s', t)
    ensures MemOkAt(s', a)
  {
    ValueAtAppend(s.mem0, s.done, s'.done[|s.done|], s.clock, a);
    if s.locks[PsLock(a)].Locked? {
      OwnerHolds(s, PsLock(a));
    }
  }

  lemma MemRead(s: State, s': State, t: Tid, a: Addr)
    requires |s.locks| == TABSZ && MemOkAt(s, a)
    requires Validates(s, s', t) || LooksAtClock(s, s', t) || exists b, rdv, v :: Reads(s, s', t, b, rdv, v)
    ensures MemOkAt(s', a)
  {
  }

  lemma MemStep(s: State, s': State, t: Tid, a: Addr)
    requires Structure(s) && Effect(s, s', t) && |s'.locks| == TABSZ && MemOkAt(s, a)
    requires forall d :: 0 <= d < |s.done| && s.done[d].outcome.Committed? ==> s.done[d].outcome.wv <= s.clock
    ensures MemOkAt(s', a)
  {
    if WritesBack(s, s', t) {
      MemWriteBack(s, s', t, a);
    } else if Commits(s, s', t) {
      MemCommit(s, s', t, a);
    } else if wv :| GetsVersion(s, s', t, wv) {
      MemClock(s, s', t, wv, a);
    } else if Ends(s, s', t) {
      MemEnd(s, s', t, a);
    } else if Quiet(s, s', t) {
      MemQuiet(s, s', t, a);
    } else if Begins(s, s', t) {
      MemBegin(s, s', t, a);
    } else if i, rdv :| Takes(s, s', t, i, rdv) {
      MemTake(s, s', t, i, rdv, a);
    } else if i :| Gives(s, s', t, i) {
      MemGive(s, s', t, i, a);
    } else {
      MemRead(s, s', t, a);
    }
  }

  // ---- The order of commits ----

  /** No commit to a stripe is above the stripe's version. */
  ghost predicate CommitsBelow(s: State)
    requires |s.locks| == TABSZ
  {
    forall d, a :: 0 <= d < |s.done| && Wrote(s.done[d], a).Some? ==>
        s.done[d].outcome.wv <= CommitVersion(s, PsLock(a))
  }

  /** Commits to the same stripe have ascending write versions. */
  ghost predicate CommitsAscend(done: seq<TxRecord>) {
    forall d, e, a, b ::
      0 <= d < e < |done| && Wrote(done[d], a).Some? && Wrote(done[e], b).Some? && PsLock(a) == PsLock(b) ==>
        done[d].outcome.wv < done[e].outcome.wv
  }

  /** No commit to stripe `k` falls between versions `rv` and `wv`. */
  ghost predicate NoneBetween(done: seq<TxRecord>, k: Stripe, rv: nat, wv: nat) {
    forall d, a :: 0 <= d < |done| && Wrote(done[d], a).Some? && PsLock(a) == k ==>
      done[d].outcome.wv <= rv || wv < done[d].outcome.wv
  }

  /** No other commit to a stripe that a committed transaction read falls between the version it
      read at and the version it wrote at. */
  ghost predicate Isolated(done: seq<TxRecord>) {
    forall d, e, a, b ::
      0 <= d < |done| && 0 <= e < |done| && d != e && done[d].outcome.Committed? && a in done[d].seen &&
      Wrote(done[e], b).Some? && PsLock(a) == PsLock(b) ==>
        done[e].outcome.wv <= done[d].rv || done[d].outcome.wv < done[e].outcome.wv
  }

  lemma CommitsBelowStep(s: State, s': State, t: Tid)
    requires Structure(s) && Effect(s, s', t) && |s'.locks| == TABSZ && CommitsBelow(s)
    ensures CommitsBelow(s')
  {
    DoneGrows(s, s', t);
    forall d, a | 0 <= d < |s'.done| && Wrote(s'.done[d], a).Some?
      ensures s'.done[d].outcome.wv <= CommitVersion(s', PsLock(a))
    {
      if d < |s.done| {
        assert s'.done[d] == s.done[d];
        VersionsRise(s, s', t, PsLock(a));
      } else {
        assert Commits(s, s', t);
        CommitOwns(s, s', t, a);
        CommitsStripe(s, s', t, PsLock(a));
      }
    }
  }

  lemma CommitsAscendStep(s: State, s': State, t: Tid)
    requires Structure(s) && Effect(s, s', t) && CommitsBelow(s) && CommitsAscend(s.done)
    ensures CommitsAscend(s'.done)
  {
    DoneGrows(s, s', t);
    forall d, e, a, b | 0 <= d < e < |s'.done| && Wrote(s'.done[d], a).Some? && Wrote(s'.done[e], b).Some? &&
        PsLock(a) == PsLock(b)
      ensures s'.done[d].outcome.wv < s'.done[e].outcome.wv
    {
      assert s'.done[d] == s.done[d];
      if e < |s.done| {
        assert s'.done[e] == s.done[e];
      } else {
        assert Commits(s, s', t);
        CommitOwns(s, s', t, b);
        CommitsStripe(s, s', t, PsLock(b));
      }
    }
  }

  // ---- Validation ----

  /** No commit to the stripe came in since version `rv`, and none will come in below `wv` but from `me`. */
  ghost predicate Safe(s: State, k: Stripe, rv: nat, wv: nat, me: Tid) {
    k < |s.locks| ==> OwnerAbove(s, k, wv, me) && NoneBetween(s.done, k, rv, wv)
  }

  /** The part of its read-set that thread `t` has validated is safe. */
  ghost predicate Validated(s: State, t: Tid)
    requires |s.locks| == TABSZ && t < |s.threads|
  {
    var T := s.threads[t];
    T.pc.Validate? && T.pc.ok ==>
      forall j :: 0 <= j < T.pc.i && j < |T.rdSet| ==> Safe(s, T.rdSet[j], T.rv, T.pc.wv, t)
  }

  lemma NoneBetweenStep(s: State, s': State, o: Tid, me: Tid, k: Stripe, rv: nat, wv: nat)
    requires Structure(s) && Effect(s, s', o) && k < TABSZ && o != me
    requires NoneBetween(s.done, k, rv, wv) && OwnerAbove(s, k, wv, me)
    ensures NoneBetween(s'.done, k, rv, wv)
  {
    DoneGrows(s, s', o);
    forall d, a | 0 <= d < |s'.done| && Wrote(s'.done[d], a).Some? && PsLock(a) == k
      ensures s'.done[d].outcome.wv <= rv || wv < s'.done[d].outcome.wv
    {
      if d < |s.done| {
        assert s'.done[d] == s.done[d];
      } else {
        assert Commits(s, s', o);
        CommitOwns(s, s', o, a);
      }
    }
  }

  lemma ValidatedOther(s: State, s': State, t: Tid, o: Tid)
    requires Structure(s) && Effect(s, s', t) && |s'.locks| == TABSZ && |s'.threads| == |s.threads|
    requires o < |s.threads| && o != t && s'.threads[o] == s.threads[o]
    requires Validated(s, o)
    ensures Validated(s', o)
  {
    var T := s.threads[o];
    if T.pc.Validate? && T.pc.ok {
      assert ThreadOk(s.clock, s.locks, o, T);
      forall j | 0 <= j < T.pc.i && j < |T.rdSet| ensures Safe(s', T.rdSet[j], T.rv, T.pc.wv, o) {
        assert Safe(s, T.rdSet[j], T.rv, T.pc.wv, o) && T.rdSet[j] in T.rdSet;
        OwnerAboveStep(s, s', t, T.rdSet[j], T.pc.wv, o);
        NoneBetweenStep(s, s', t, o, T.rdSet[j], T.rv, T.pc.wv);
      }
    }
  }

  /** A stripe that passes validation has had no commit above the read version. */
  lemma PassedEntry(s: State, s': State, t: Tid)
    requires Structure(s) && Validates(s, s', t) && CommitsBelow(s)
    requires s'.threads[t].pc.ok
    ensures var T := s.threads[t]; Safe(s', T.rdSet[T.pc.i], T.rv, T.pc.wv, t)
  {
    var T := s.threads[t];
    var k := T.rdSet[T.pc.i];
    assert ThreadOk(s.clock, s.locks, t, T);
    assert k in T.rdSet;
    if s.locks[k].Locked? {
      OwnerHolds(s, k);
      assert CommitVersion(s, k) <= T.rv;
    }
    forall d, a | 0 <= d < |s'.done| && Wrote(s'.done[d], a).Some? && PsLock(a) == k
      ensures s'.done[d].outcome.wv <= T.rv
    {
    }
  }

  /** Validating one entry leaves what is known of the entries before it. */
  lemma PassedBefore(s: State, s': State, t: Tid, k: Stripe, rv: nat, wv: nat)
    requires Validates(s, s', t) && Safe(s, k, rv, wv, t)
    ensures Safe(s', k, rv, wv, t)
  {
  }

  lemma ValidatedOne(s: State, s': State, t: Tid)
    requires Structure(s) && Validates(s, s', t)
    ensures |s'.locks| == TABSZ && t < |s'.threads| && s'.threads[t].pc.i == s.threads[t].pc.i + 1
    ensures s'.threads[t] == s.threads[t].(pc := s'.threads[t].pc) && s'.threads[t].pc.wv == s.threads[t].pc.wv
    ensures s'.threads[t].pc.ok ==> s.threads[t].pc.ok
  {
  }

  lemma ValidatedExtend(s: State, s': State, t: Tid)
    requires |s.locks| == |s'.locks| == TABSZ && t < |s.threads| && t < |s'.threads| && Validated(s, t)
    requires s.threads[t].pc.Validate? && s'.threads[t].pc.Validate? && s'.threads[t].pc.i == s.threads[t].pc.i + 1
    requires s'.threads[t] == s.threads[t].(pc := s'.threads[t].pc) && s'.threads[t].pc.wv == s.threads[t].pc.wv
    requires s'.threads[t].pc.ok ==> s.threads[t].pc.ok
    requires forall k, rv, wv {:trigger Safe(s, k, rv, wv, t)} :: Safe(s, k, rv, wv, t) ==> Safe(s', k, rv, wv, t)
    requires var T := s.threads[t];
             s'.threads[t].pc.ok && T.pc.i < |T.rdSet| ==> Safe(s', T.rdSet[T.pc.i], T.rv, T.pc.wv, t)
    ensures Validated(s', t)
  {
    var T, T' := s.threads[t], s'.threads[t];
    if T'.pc.ok {
      forall j | 0 <= j < T'.pc.i && j < |T'.rdSet| ensures Safe(s', T'.rdSet[j], T'.rv, T'.pc.wv, t) {
        if j < T.pc.i {
          assert Safe(s, T.rdSet[j], T.rv, T.pc.wv, t);
        }
      }
    }
  }

  lemma ValidatedMore(s: State, s': State, t: Tid)
    requires Structure(s) && Validates(s, s', t) && Validated(s, t) && CommitsBelow(s)
    ensures |s'.locks| == TABSZ && t < |s'.threads| && Validated(s', t)
  {
    ValidatedOne(s, s', t);
    if s'.threads[t].pc.ok {
      PassedEntry(s, s', t);
    }
    forall k, rv, wv | Safe(s, k, rv, wv, t) ensures Safe(s', k, rv, wv, t) {
      PassedBefore(s, s', t, k, rv, wv);
    }
    ValidatedExtend(s, s', t);
  }

  lemma NoLongerValidates(s: State, s': State, t: Tid)
    requires Effect(s, s', t) && !Validates(s, s', t) && !exists wv :: GetsVersion(s, s', t, wv)
    ensures t < |s'.threads| && !s'.threads[t].pc.Validate?
  {
  }

  lemma ValidatedSelf(s: State, s': State, t: Tid)
    requires Structure(s) && Effect(s, s', t) && |s'.locks| == TABSZ && |s'.threads| == |s.threads|
    requires t < |s.threads| && Validated(s, t) && CommitsBelow(s)
    ensures Validated(s', t)
  {
    if Validates(s, s', t) {
      ValidatedMore(s, s', t);
    } else if wv :| GetsVersion(s, s', t, wv) {
    } else {
      NoLongerValidates(s, s', t);
    }
  }

  /** A commit has validated all it has read. */
  lemma CommitValidated(s: State, s': State, t: Tid, a: Addr)
    requires Structure(s) && Commits(s, s', t) && Validated(s, t)
    requires a in s.threads[t].seen
    ensures OwnerAbove(s, PsLock(a), s.threads[t].pc.wv, t)
    ensures NoneBetween(s.done, PsLock(a), s.threads[t].rv, s.threads[t].pc.wv)
  {
    var T := s.threads[t];
    assert ThreadOk(s.clock, s.locks, t, T);
    var j :| 0 <= j < |T.rdSet| && T.rdSet[j] == PsLock(a);
    assert Safe(s, T.rdSet[j], T.rv, T.pc.wv, t);
  }
}
