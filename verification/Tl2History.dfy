/** What the finished transactions of a run have done to memory, and what every lock holder, every
    load in flight and every validated read-set entry owes to them. */
module Tl2History {
  import opened Options
  import opened Tl2Log
  import opened Tl2Machine
  import opened Tl2Structure
  import opened Tl2Effects

  /** What a finished transaction wrote to `a`. */
  function Wrote(r: TxRecord, a: Addr): Option<Val> {
    if r.outcome.Committed? then LastStore(r.outcome.writes, a) else None
  }

  /** The value of `a` as of version `v`: initial memory overwritten by the commits whose write
      version is at most `v`. */
  function ValueAt(mem0: Memory, done: seq<TxRecord>, v: nat, a: Addr): Val {
    if done == [] then Get(mem0, a)
    else
      var r := done[|done| - 1];
      if Wrote(r, a).Some? && r.outcome.wv <= v then Wrote(r, a).value
      else ValueAt(mem0, done[..|done| - 1], v, a)
  }

  lemma ValueAtAppend(mem0: Memory, done: seq<TxRecord>, r: TxRecord, v: nat, a: Addr)
    ensures ValueAt(mem0, done + [r], v, a)
         == if Wrote(r, a).Some? && r.outcome.wv <= v then Wrote(r, a).value else ValueAt(mem0, done, v, a)
  {
    assert (done + [r])[..|done|] == done;
  }

  /** Two versions that no commit to `a` tells apart see the same value. */
  lemma {:induction false} ValueAtAgree(mem0: Memory, done: seq<TxRecord>, v: nat, w: nat, a: Addr)
    requires forall d :: 0 <= d < |done| && Wrote(done[d], a).Some? ==>
                           (done[d].outcome.wv <= v <==> done[d].outcome.wv <= w)
    ensures ValueAt(mem0, done, v, a) == ValueAt(mem0, done, w, a)
  {
    if done != [] {
      ValueAtAgree(mem0, done[..|done| - 1], v, w, a);
    }
  }

  // ---- Lock holders ----

  /** The thread other than `me` that holds stripe `k`, if it has consulted the clock already, did so
      when the clock had reached `n`: its write version is or will be above `n`. */
  ghost predicate OwnerAbove(s: State, k: Stripe, n: nat, me: Tid)
    requires k < |s.locks|
  {
    s.locks[k].Locked? && s.locks[k].owner < |s.threads| && s.locks[k].owner != me ==>
      var pc := s.threads[s.locks[k].owner].pc;
      (pc.CasClock? ==> n <= pc.gv) && (pc.Validate? ==> n < pc.wv)
  }

  lemma OwnerAboveLocks(s: State, s': State, t: Tid, k: Stripe, n: nat, me: Tid)
    requires |s.locks| == |s'.locks| == TABSZ && k < TABSZ
    requires (exists i, rdv :: Takes(s, s', t, i, rdv)) || (exists i :: Gives(s, s', t, i))
    requires OwnerAbove(s, k, n, me)
    ensures OwnerAbove(s', k, n, me)
  {
    if i, rdv :| Takes(s, s', t, i, rdv) {
    } else {
      var i :| Gives(s, s', t, i);
    }
  }

  lemma OwnerAboveStep(s: State, s': State, t: Tid, k: Stripe, n: nat, me: Tid)
    requires |s.locks| == |s'.locks| == TABSZ && k < TABSZ
    requires Effect(s, s', t)
    requires OwnerAbove(s, k, n, me) && n <= s.clock
    ensures OwnerAbove(s', k, n, me)
  {
    if Quiet(s, s', t) {
    } else if Begins(s, s', t) {
    } else if (exists i, rdv :: Takes(s, s', t, i, rdv)) || (exists i :: Gives(s, s', t, i)) {
      OwnerAboveLocks(s, s', t, k, n, me);
    } else if a, rdv, v :| Reads(s, s', t, a, rdv, v) {
    } else if wv :| GetsVersion(s, s', t, wv) {
    }
  }

  // ---- Stripe versions ----

  /** The version a stripe has, or had when it was locked. */
  ghost function StripeVersion(s: State, k: Stripe): nat
    requires k < |s.locks|
  {
    match s.locks[k]
    case Version(n) => n
    case Locked(o, i) => if o < |s.threads| && i in s.threads[o].held then s.threads[o].held[i] else 0
  }

  /** The stripe is held by a thread that has committed. */
  ghost predicate Dirty(s: State, k: Stripe)
    requires k < |s.locks|
  {
    s.locks[k].Locked? && s.locks[k].owner < |s.threads| && Committing(s.threads[s.locks[k].owner].pc)
  }

  /** The version of the last commit to a stripe, which is the owner's if that is writing back. */
  ghost function CommitVersion(s: State, k: Stripe): nat
    requires k < |s.locks|
  {
    if Dirty(s, k) then s.threads[s.locks[k].owner].pc.wv else StripeVersion(s, k)
  }

  ghost predicate KeepsStripe(s: State, s': State, k: Stripe)
    requires k < |s.locks| == |s'.locks|
  {
    && s'.locks[k] == s.locks[k]
    && StripeVersion(s', k) == StripeVersion(s, k)
    && Dirty(s', k) == Dirty(s, k)
    && CommitVersion(s', k) == CommitVersion(s, k)
  }

  /** A lock word names an entry that holds it. */
  lemma OwnerHolds(s: State, k: Stripe)
    requires Structure(s) && k < TABSZ && s.locks[k].Locked?
    ensures s.locks[k].owner < |s.threads|
    ensures var T := s.threads[s.locks[k].owner];
            s.locks[k].entry in T.held && s.locks[k].entry < |T.wrSet.entries| && LockOf(T, s.locks[k].entry) == k
  {
    assert LockOk(s.clock, s.threads, k, s.locks[k]);
  }

  /** The lock table is as it was, and so is the grip thread `t` has on it. */
  ghost predicate SameGrip(s: State, s': State, t: Tid) {
    && OnlyThread(s, s', t)
    && s'.locks == s.locks
    && var T, T' := s.threads[t], s'.threads[t];
       && T'.held == T.held
       && (T.held == map[] || (Committing(T.pc) == Committing(T'.pc) && (Committing(T.pc) ==> T'.pc.wv == T.pc.wv)))
  }

  lemma GripKeepsStripe(s: State, s': State, t: Tid, k: Stripe)
    requires Structure(s) && k < TABSZ && |s'.locks| == TABSZ
    requires SameGrip(s, s', t)
    ensures KeepsStripe(s, s', k)
  {
    if s.locks[k].Locked? {
      OwnerHolds(s, k);
    }
  }

  /** Every step takes a lock, gives one back, commits, or leaves the stripes alone. */
  lemma GripOfStep(s: State, s': State, t: Tid)
    requires Effect(s, s', t)
    ensures || SameGrip(s, s', t)
            || Commits(s, s', t)
            || (exists i, rdv :: Takes(s, s', t, i, rdv))
            || (exists i :: Gives(s, s', t, i))
  {
    if Quiet(s, s', t) {
    } else if Begins(s, s', t) {
    } else if a, rdv, v :| Reads(s, s', t, a, rdv, v) {
      assert SameGrip(s, s', t);
    } else if wv :| GetsVersion(s, s', t, wv) {
      assert SameGrip(s, s', t);
    } else if WritesBack(s, s', t) || Validates(s, s', t) || LooksAtClock(s, s', t) {
      assert SameGrip(s, s', t);
    }
  }

  /** Taking a lock is invisible in the versions of its stripe. */
  lemma TakesStripe(s: State, s': State, t: Tid, i: nat, rdv: nat, k: Stripe)
    requires Structure(s) && k < TABSZ && Takes(s, s', t, i, rdv)
    ensures k != LockOf(s.threads[t], i) ==> KeepsStripe(s, s', k)
    ensures StripeVersion(s', k) == StripeVersion(s, k)
    ensures Dirty(s', k) == Dirty(s, k)
    ensures CommitVersion(s', k) == CommitVersion(s, k)
  {
    if s.locks[k].Locked? {
      OwnerHolds(s, k);
      assert s.locks[k].owner == t ==> s.locks[k].entry != i;
    }
  }

  /** Giving a lock back leaves the commit version; the stripe version rises if there was a commit. */
  lemma GivesStripe(s: State, s': State, t: Tid, i: nat, k: Stripe)
    requires Structure(s) && k < TABSZ && Gives(s, s', t, i)
    ensures k != LockOf(s.threads[t], i) ==> KeepsStripe(s, s', k)
    ensures CommitVersion(s', k) == CommitVersion(s, k)
    ensures k == LockOf(s.threads[t], i) && Dirty(s, k) ==> StripeVersion(s, k) < StripeVersion(s', k)
    ensures k == LockOf(s.threads[t], i) && !Dirty(s, k) ==> StripeVersion(s, k) == StripeVersion(s', k)
    ensures k == LockOf(s.threads[t], i) ==> !Dirty(s', k)
  {
    assert ThreadOk(s.clock, s.locks, t, s.threads[t]);
    if s.locks[k].Locked? {
      OwnerHolds(s, k);
    }
  }

  /** The stripes of a commit are its own and get a version above all earlier ones. */
  lemma CommitsStripe(s: State, s': State, t: Tid, k: Stripe)
    requires Structure(s) && k < TABSZ && Commits(s, s', t)
    ensures !(s.locks[k].Locked? && s.locks[k].owner == t) ==> KeepsStripe(s, s', k)
    ensures s.locks[k].Locked? && s.locks[k].owner == t ==>
              && Dirty(s', k) && !Dirty(s, k) && StripeVersion(s', k) == StripeVersion(s, k)
              && CommitVersion(s, k) < CommitVersion(s', k) == s.threads[t].pc.wv
  {
    assert ThreadOk(s.clock, s.locks, t, s.threads[t]);
    if s.locks[k].Locked? {
      OwnerHolds(s, k);
    }
  }

  lemma VersionsRise(s: State, s': State, t: Tid, k: Stripe)
    requires Structure(s) && k < TABSZ && |s'.locks| == TABSZ && Effect(s, s', t)
    ensures StripeVersion(s, k) <= StripeVersion(s', k)
    ensures CommitVersion(s, k) <= CommitVersion(s', k)
  {
    GripOfStep(s, s', t);
    if i, rdv :| Takes(s, s', t, i, rdv) {
      TakesStripe(s, s', t, i, rdv, k);
    } else if i :| Gives(s, s', t, i) {
      GivesStripe(s, s', t, i, k);
    } else if Commits(s, s', t) {
      CommitsStripe(s, s', t, k);
    } else {
      GripKeepsStripe(s, s', t, k);
    }
  }

  // ---- Loads in flight ----

  /** `v` is what memory holds at `a` for as long as its stripe is at version `rdv`. */
  ghost predicate Settled(s: State, a: Addr, rdv: nat, v: Val)
    requires |s.locks| == TABSZ
  {
    var k := PsLock(a);
    && rdv <= StripeVersion(s, k)
    && (StripeVersion(s, k) == rdv && !Dirty(s, k) ==> Get(s.mem, a) == v)
  }

  lemma SettledWriteBack(s: State, s': State, t: Tid, a: Addr, rdv: nat, v: Val)
    requires Structure(s) && WritesBack(s, s', t) && Settled(s, a, rdv, v)
    ensures Settled(s', a, rdv, v)
  {
    var k := PsLock(a);
    GripKeepsStripe(s, s', t, k);
    var T := s.threads[t];
    assert ThreadOk(s.clock, s.locks, t, T);
    assert Covered(s.locks, t, T.wrSet.entries, T.pc.i);
  }

  lemma SettledStep(s: State, s': State, t: Tid, a: Addr, rdv: nat, v: Val)
    requires Structure(s) && Effect(s, s', t) && |s'.locks| == TABSZ
    requires Settled(s, a, rdv, v)
    ensures Settled(s', a, rdv, v)
  {
    var k := PsLock(a);
    if WritesBack(s, s', t) {
      SettledWriteBack(s, s', t, a, rdv, v);
    } else if i, n :| Takes(s, s', t, i, n) {
      TakesStripe(s, s', t, i, n, k);
    } else if i :| Gives(s, s', t, i) {
      GivesStripe(s, s', t, i, k);
    } else if Commits(s, s', t) {
      CommitsStripe(s, s', t, k);
    } else {
      GripOfStep(s, s', t);
      GripKeepsStripe(s, s', t, k);
    }
  }
}
