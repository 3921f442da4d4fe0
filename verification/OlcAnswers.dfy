/** What a lookup of the B-tree tells its caller.  The flag it returns is a variable that is only set where the
    key is found, so that for an absent key it may be anything. */
module OlcAnswers {
  import opened Options
  import opened OlcNodes
  import opened Slots
  import opened OlcTree
  import opened OlcMachine
  import opened OlcProof

  // ---- A key that is not there, reported as found ----

  /** The lookup of a key in the tree as it is made, after `n` steps. */
  ghost function LookupAt(k: Key, before: Val, n: nat): Thread {
    var idle := Thread(Idle, 0, Lookup(k), 0, 0, None, 0, None, 0);
    var called := idle.(pc := ReadRoot, begun := 1, result := before);
    var versioned := called.(pc := RootCheck, versionNode := FIRST_VERSION);
    match n
    case 0 => idle
    case 1 => called
    case 2 => called.(pc := RootVersion)
    case 3 => versioned
    case 4 => versioned.(pc := Visit)
    case 5 => versioned.(pc := LookupParent)
    case 6 => versioned.(pc := LookupNode)
    case _ => versioned.(pc := Idle)
  }

  ghost function LookupRun(t: Tid, k: Key, before: Val): seq<State> {
    seq(8, n requires 0 <= n < 8 =>
      State(Shared([Page(0, FULL, Leaf([], []))], [FIRST_VERSION], [None], 0), map[t := LookupAt(k, before, n)],
            if n < 7 then [] else [Effect(t, 0, Lookup(k), Answer(true, before))]))
  }

  lemma LookupDescends(t: Tid, k: Key, before: Val, n: nat)
    requires n < 4
    ensures Next(LookupRun(t, k, before)[n], LookupRun(t, k, before)[n + 1])
  {
    var run, c := LookupRun(t, k, before), Choice(Lookup(k), before, false, 0, None, true);
    assert !IsLocked(FIRST_VERSION);
    assert t in run[n].threads && Step(run[n], run[n + 1], t, c);
  }

  lemma LookupEnds(t: Tid, k: Key, before: Val, n: nat)
    requires 4 <= n < 7
    ensures Next(LookupRun(t, k, before)[n], LookupRun(t, k, before)[n + 1])
  {
    var run, c := LookupRun(t, k, before), Choice(Lookup(k), before, false, 0, None, true);
    assert t in run[n].threads && Step(run[n], run[n + 1], t, c);
  }

  /** The tree is empty, and the lookup returns true and what the variable of the caller held before. */
  lemma AbsentKeyReported(t: Tid, k: Key, before: Val) returns (run: seq<State>)
    ensures Run(run) && |run| == 8
    ensures run[7].done == [Effect(t, 0, Lookup(k), Answer(true, before))] && k !in MapOf([])
  {
    run := LookupRun(t, k, before);
    forall n: nat | n + 1 < |run| ensures Stepped(run, n) {
      if n < 4 {
        LookupDescends(t, k, before, n);
      } else {
        LookupEnds(t, k, before, n);
      }
    }
  }

  // ---- The other flag ----

  /** Effect `x`, if there is one that is a lookup, with the other flag. */
  function Flip(done: seq<Effect>, x: nat): seq<Effect> {
    if x < |done| && done[x].answer.Answer? then
      done[x := done[x].(answer := Answer(!done[x].answer.success, done[x].answer.result))]
    else done
  }

  function Flipped(s: State, x: nat): State {
    s.(done := Flip(s.done, x))
  }

  lemma FlipMore(done: seq<Effect>, x: nat, e: Effect)
    requires x < |done|
    ensures Flip(done + [e], x) == Flip(done, x) + [e]
  {
  }

  /** No step looks at the effects. */
  lemma FlippedQuiet(s: State, s': State, t: Tid, c: Choice, x: nat)
    requires t in s.threads && Step(s, s', t, c) && s.threads[t].pc !in {Store, LookupNode}
    ensures Step(Flipped(s, x), Flipped(s', x), t, c)
  {
  }

  lemma FlippedEffect(s: State, s': State, t: Tid, c: Choice, x: nat)
    requires t in s.threads && Step(s, s', t, c) && s.threads[t].pc in {Store, LookupNode} && x < |s.done|
    ensures Step(Flipped(s, x), Flipped(s', x), t, c)
  {
    if |s'.done| > |s.done| {
      FlipMore(s.done, x, s'.done[|s.done|]);
    }
  }

  /** The step at which a lookup of an absent key takes effect can as well give the other flag. */
  lemma FlippedHere(s: State, s': State, t: Tid, c: Choice)
    requires Inv(s) && t in s.threads && Step(s, s', t, c) && |s'.done| == |s.done| + 1
    requires s'.done[|s.done|].op.Lookup? && s'.done[|s.done|].op.key !in MapOf(s.done)
    ensures Step(s, Flipped(s', |s.done|), t, c.(success := !c.success))
  {
    var th := s.threads[t];
    assert At(s, t, th);
    FoundIsHeld(s, th);
    assert Flip(s'.done, |s.done|)[..|s.done|] == s.done;
  }

  ghost predicate AbsentLookup(done: seq<Effect>, x: nat) {
    x < |done| ==> done[x].op.Lookup? && done[x].op.key !in MapOf(done[..x])
  }

  lemma FlippedStep(s: State, s': State, t: Tid, c: Choice, x: nat)
    requires Inv(s) && t in s.threads && Step(s, s', t, c) && s.threads[t].pc in {Store, LookupNode}
    requires AbsentLookup(s'.done, x)
    requires (s'.done == s.done || (|s'.done| == |s.done| + 1 && s'.done[..|s.done|] == s.done))
    ensures Next(Flipped(s, x), Flipped(s', x))
  {
    if x < |s.done| {
      FlippedEffect(s, s', t, c, x);
    } else if x < |s'.done| {
      FlippedHere(s, s', t, c);
      assert Flipped(s, x) == s;
    } else {
      assert Flipped(s, x) == s && Flipped(s', x) == s';
    }
  }

  lemma FlippedNext(s: State, s': State, x: nat)
    requires Inv(s) && Next(s, s') && AbsentLookup(s'.done, x)
    ensures Next(Flipped(s, x), Flipped(s', x))
  {
    var t, c :| t in s.threads && Step(s, s', t, c);
    if s.threads[t].pc !in {Store, LookupNode} {
      FlippedQuiet(s, s', t, c, x);
    } else {
      EffectAppends(s, s', t, c);
      FlippedStep(s, s', t, c, x);
    }
  }

  lemma EffectAppends(s: State, s': State, t: Tid, c: Choice)
    requires t in s.threads && Step(s, s', t, c) && s.threads[t].pc in {Store, LookupNode}
    ensures s'.done == s.done || (|s'.done| == |s.done| + 1 && s'.done[..|s.done|] == s.done)
  {
  }

  /** The run in which everything is the same but for that flag. */
  function FlippedRun(run: seq<State>, x: nat): seq<State> {
    seq(|run|, i requires 0 <= i < |run| => Flipped(run[i], x))
  }

  lemma EitherFlag(run: seq<State>, i: nat, x: nat)
    requires Run(run) && i < |run| && x < |run[i].done| && AbsentLookup(run[i].done, x)
    ensures Run(FlippedRun(run, x)[..i + 1])
  {
    var other := FlippedRun(run, x)[..i + 1];
    assert other[0] == run[0];
    forall j: nat | j + 1 < |other| ensures Stepped(other, j) {
      FlippedStepOfRun(run, i, x, j);
    }
  }

  lemma FlippedStepOfRun(run: seq<State>, i: nat, x: nat, j: nat)
    requires Run(run) && j < i < |run| && x < |run[i].done| && AbsentLookup(run[i].done, x)
    ensures Next(Flipped(run[j], x), Flipped(run[j + 1], x))
  {
    InvRun(run, j);
    EffectsGrow(run, j + 1, i);
    assert Stepped(run, j);
    AbsentBefore(run[j + 1].done, run[i].done, x);
    FlippedNext(run[j], run[j + 1], x);
  }

  lemma AbsentBefore(done: seq<Effect>, more: seq<Effect>, x: nat)
    requires done <= more && AbsentLookup(more, x)
    ensures AbsentLookup(done, x)
  {
    if x < |done| {
      assert done[x] == more[x] && done[..x] == more[..x];
    }
  }

  // ---- When the answer is determined ----

  /** The same effects, but perhaps for the flag that lookup `x` returned. */
  ghost predicate Alike(a: seq<Effect>, b: seq<Effect>, x: nat)
    requires x < |a|
  {
    && |a| == |b| && a[..x] == b[..x] && a[x + 1..] == b[x + 1..]
    && b[x].answer.Answer? && b[x].(answer := a[x].answer) == a[x]
    && (a[x].answer.Answer? ==> b[x].answer.result == a[x].answer.result)
  }

  /** No run with the same pages and the same effects in the same order gives lookup `x` another answer. */
  ghost predicate Determined(s: State, x: nat)
    requires x < |s.done|
  {
    forall other: seq<State> :: Run(other) && Reaches(other, s, x) ==> Final(other).done[x] == s.done[x]
  }

  ghost function Final(run: seq<State>): State
    requires |run| > 0
  {
    run[|run| - 1]
  }

  ghost predicate Reaches(run: seq<State>, s: State, x: nat)
    requires x < |s.done|
  {
    |run| > 0 && Final(run).sh == s.sh && Final(run).threads == s.threads && Alike(s.done, Final(run).done, x)
  }

  /** The answer of a lookup is determined by what else happened if and only if the key is in the map when the
      lookup takes effect; and then it is true and the value that the map holds. */
  lemma AnswerDetermined(run: seq<State>, i: nat, x: nat)
    requires Run(run) && i < |run| && x < |run[i].done| && run[i].done[x].op.Lookup?
    ensures var e, m := run[i].done[x], MapOf(run[i].done[..x]);
            && (Determined(run[i], x) <==> e.op.key in m)
            && (e.op.key in m ==> e.answer == Answer(true, m[e.op.key]))
  {
    var s := run[i];
    var e, m := s.done[x], MapOf(s.done[..x]);
    Linearizable(run, i);
    if e.op.key in m {
      forall other: seq<State> | Run(other) && Reaches(other, s, x) ensures Final(other).done[x] == s.done[x] {
        Linearizable(other, |other| - 1);
        assert LegalAnswer(MapOf(Final(other).done[..x]), e.op.key, Final(other).done[x].answer);
      }
    } else {
      var other := FlippedRun(run, x)[..i + 1];
      EitherFlag(run, i, x);
      assert LegalAnswer(m, e.op.key, e.answer);
      assert Reaches(other, s, x) && Final(other).done[x] != s.done[x];
    }
  }
}
