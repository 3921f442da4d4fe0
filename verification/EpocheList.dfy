/** The list of nodes a thread has marked for deletion, in labels of up to 32 nodes that share the
    epoch of the last one added. */
module EpocheList {

  type Node = nat

  const LABEL_CAPACITY: nat := 32

  /** An epoch as threads announce it; `Max` announces that the thread is in no critical section. */
  datatype Epoch = At(n: nat) | Max

  predicate Older(e: nat, o: Epoch) {
    o.Max? || e < o.n
  }

  datatype Label = Label(nodes: seq<Node>, epoche: nat)

  /** How many nodes a list of labels holds. */
  function Count(ls: seq<Label>): nat {
    if ls == [] then 0 else |ls[0].nodes| + Count(ls[1..])
  }

  lemma {:induction false} CountAppend(ls: seq<Label>, ms: seq<Label>)
    ensures Count(ls + ms) == Count(ls) + Count(ms)
  {
    if ls == [] {
      assert ls + ms == ms;
    } else {
      assert (ls + ms)[1..] == ls[1..] + ms;
      CountAppend(ls[1..], ms);
    }
  }

  /** Marking a node: it joins the head label if that has room, and raises its epoch. */
  function Add(ls: seq<Label>, n: Node, e: nat): (r: seq<Label>)
    ensures Count(r) == Count(ls) + 1
  {
    if ls != [] && |ls[0].nodes| < LABEL_CAPACITY then [Label(ls[0].nodes + [n], e)] + ls[1..]
    else [Label([n], e)] + ls
  }

  /** The labels of `ls` without the one at `k`. */
  function Without(ls: seq<Label>, k: nat): (r: seq<Label>)
    requires k < |ls|
    ensures Count(r) == Count(ls) - |ls[k].nodes|
  {
    CountAppend(ls[..k], ls[k + 1..]);
    CountAppend(ls[..k], ls[k..]);
    assert ls[..k] + ls[k..] == ls && ls[k..][1..] == ls[k + 1..];
    ls[..k] + ls[k + 1..]
  }

  /** The labels an exiting thread keeps when `oldest` is the oldest epoch still in use. */
  function Kept(ls: seq<Label>, oldest: Epoch): seq<Label>
  {
    if ls == [] then []
    else
      var l := ls[|ls| - 1];
      Kept(ls[..|ls| - 1], oldest) + if Older(l.epoche, oldest) then [] else [l]
  }

  /** The nodes it frees, in the order it frees them. */
  function Freed(ls: seq<Label>, oldest: Epoch): seq<Node>
  {
    if ls == [] then []
    else
      var l := ls[|ls| - 1];
      Freed(ls[..|ls| - 1], oldest) + if Older(l.epoche, oldest) then l.nodes else []
  }

  /** How often a sequence, and a list of labels, has node `x`. */
  function TimesIn(nodes: seq<Node>, x: Node): nat {
    if nodes == [] then 0 else TimesIn(nodes[..|nodes| - 1], x) + if nodes[|nodes| - 1] == x then 1 else 0
  }

  function Times(ls: seq<Label>, x: Node): nat {
    if ls == [] then 0 else Times(ls[..|ls| - 1], x) + TimesIn(ls[|ls| - 1].nodes, x)
  }

  lemma {:induction false} TimesInAppend(a: seq<Node>, b: seq<Node>, x: Node)
    ensures TimesIn(a + b, x) == TimesIn(a, x) + TimesIn(b, x)
  {
    if b == [] {
      assert a + b == a;
    } else {
      assert (a + b)[..|a + b| - 1] == a + b[..|b| - 1];
      TimesInAppend(a, b[..|b| - 1], x);
    }
  }

  lemma {:induction false} TimesAppend(ls: seq<Label>, ms: seq<Label>, x: Node)
    ensures Times(ls + ms, x) == Times(ls, x) + Times(ms, x)
  {
    if ms == [] {
      assert ls + ms == ls;
    } else {
      assert (ls + ms)[..|ls + ms| - 1] == ls + ms[..|ms| - 1];
      TimesAppend(ls, ms[..|ms| - 1], x);
    }
  }

  lemma TimesOne(l: Label, x: Node)
    ensures Times([l], x) == TimesIn(l.nodes, x)
  {
    assert [l][..0] == [];
  }

  /** Marking a node lists it once more, and no other. */
  lemma AddTimes(ls: seq<Label>, n: Node, e: nat, x: Node)
    ensures Times(Add(ls, n, e), x) == Times(ls, x) + if x == n then 1 else 0
  {
    if ls != [] && |ls[0].nodes| < LABEL_CAPACITY {
      var l := Label(ls[0].nodes + [n], e);
      TimesAppend([l], ls[1..], x);
      TimesOne(l, x);
      assert l.nodes[..|l.nodes| - 1] == ls[0].nodes;
      TimesAppend([ls[0]], ls[1..], x);
      TimesOne(ls[0], x);
      assert [ls[0]] + ls[1..] == ls;
    } else {
      TimesAppend([Label([n], e)], ls, x);
      TimesOne(Label([n], e), x);
      assert [n][..0] == [];
    }
  }

  /** What a cleanup keeps and what it frees are together what was listed, every node as often as before. */
  lemma {:induction false} KeptAndFreed(ls: seq<Label>, oldest: Epoch, x: Node)
    ensures Times(Kept(ls, oldest), x) + TimesIn(Freed(ls, oldest), x) == Times(ls, x)
  {
    if ls != [] {
      var init, l := ls[..|ls| - 1], ls[|ls| - 1];
      KeptAndFreed(init, oldest, x);
      if Older(l.epoche, oldest) {
        assert Kept(ls, oldest) == Kept(init, oldest);
        TimesInAppend(Freed(init, oldest), l.nodes, x);
      } else {
        assert Freed(ls, oldest) == Freed(init, oldest);
        TimesAppend(Kept(init, oldest), [l], x);
        TimesOne(l, x);
      }
    }
  }

  lemma AllAddTimes(ls: seq<Label>, n: Node, e: nat)
    ensures forall x :: Times(Add(ls, n, e), x) == Times(ls, x) + if x == n then 1 else 0
  {
    forall x ensures Times(Add(ls, n, e), x) == Times(ls, x) + if x == n then 1 else 0 {
      AddTimes(ls, n, e, x);
    }
  }

  lemma AllKeptAndFreed(ls: seq<Label>, oldest: Epoch)
    ensures forall x :: Times(Kept(ls, oldest), x) + TimesIn(Freed(ls, oldest), x) == Times(ls, x)
  {
    forall x ensures Times(Kept(ls, oldest), x) + TimesIn(Freed(ls, oldest), x) == Times(ls, x) {
      KeptAndFreed(ls, oldest, x);
    }
  }

  /** A label is kept or its nodes are freed, by its epoch alone. */
  lemma {:induction false} KeptOrFreed(ls: seq<Label>, oldest: Epoch, l: Label, n: Node)
    ensures l in Kept(ls, oldest) <==> l in ls && !Older(l.epoche, oldest)
    ensures n in Freed(ls, oldest) <==> exists k :: 0 <= k < |ls| && Older(ls[k].epoche, oldest) && n in ls[k].nodes
  {
    if ls != [] {
      KeptOrFreed(ls[..|ls| - 1], oldest, l, n);
      assert ls == ls[..|ls| - 1] + [ls[|ls| - 1]];
    }
  }

  lemma SplitKept(ls: seq<Label>, k: nat, oldest: Epoch)
    requires k < |ls|
    ensures Kept(ls[..k + 1], oldest) == Kept(ls[..k], oldest) + (if Older(ls[k].epoche, oldest) then [] else [ls[k]])
    ensures Freed(ls[..k + 1], oldest) ==
        Freed(ls[..k], oldest) + (if Older(ls[k].epoche, oldest) then ls[k].nodes else [])
  {
    assert ls[..k + 1][..k] == ls[..k];
  }

  /** The cleanup loop stands before position `k` of `ls`: it has looked at the first `seen` labels of
      `all`, kept those before `k` and freed the nodes of the others. */
  ghost predicate Progress(ls: seq<Label>, k: nat, all: seq<Label>, seen: nat, oldest: Epoch, freed: seq<Node>) {
    && k <= |ls| && seen <= |all|
    && ls[..k] == Kept(all[..seen], oldest)
    && ls[k..] == all[seen..]
    && freed == Freed(all[..seen], oldest)
  }

  lemma KeepOne(ls: seq<Label>, k: nat, all: seq<Label>, seen: nat, oldest: Epoch, freed: seq<Node>)
    requires Progress(ls, k, all, seen, oldest, freed) && k < |ls| && !Older(ls[k].epoche, oldest)
    ensures Progress(ls, k + 1, all, seen + 1, oldest, freed)
  {
    assert ls[k] == ls[k..][0] == all[seen];
    SplitKept(all, seen, oldest);
    assert ls[..k + 1] == ls[..k] + [ls[k]];
    assert ls[k + 1..] == ls[k..][1..] == all[seen + 1..];
  }

  lemma DropOne(ls: seq<Label>, k: nat, all: seq<Label>, seen: nat, oldest: Epoch, freed: seq<Node>)
    requires Progress(ls, k, all, seen, oldest, freed) && k < |ls| && Older(ls[k].epoche, oldest)
    ensures Progress(Without(ls, k), k, all, seen + 1, oldest, freed + ls[k].nodes)
  {
    assert ls[k] == ls[k..][0] == all[seen];
    SplitKept(all, seen, oldest);
    var ls' := ls[..k] + ls[k + 1..];
    assert ls'[..k] == ls[..k] && ls'[k..] == ls[k + 1..] == ls[k..][1..] == all[seen + 1..];
  }

  lemma ProgressEnds(all: seq<Label>, oldest: Epoch, ls: seq<Label>, seen: nat, freed: seq<Node>)
    ensures Progress(all, 0, all, 0, oldest, [])
    ensures Progress(ls, |ls|, all, seen, oldest, freed) ==> ls == Kept(all, oldest) && freed == Freed(all, oldest)
  {
    assert all[..0] == [] && all[0..] == all;
    if Progress(ls, |ls|, all, seen, oldest, freed) {
      assert ls[|ls|..] == [] && ls[..|ls|] == ls;
      assert seen == |all|;
      assert all[..seen] == all;
    }
  }

  /** The deletion list of one thread.  `labels` is the chain from `headDeletionList`, `spare` the number
      of labels on the free chain. */
  class DeletionList {
    var labels: seq<Label>
    var spare: nat
    var deletitionListCount: nat
    var added: nat
    var deleted: nat
    var thresholdCounter: nat

    ghost predicate Valid()
      reads this
    {
      && deletitionListCount == Count(labels)
      && added == deleted + Count(labels)
      && forall k :: 0 <= k < |labels| ==> 0 < |labels[k].nodes| <= LABEL_CAPACITY
    }

    constructor ()
      ensures Valid() && labels == [] && added == 0 && thresholdCounter == 0
    {
      labels := [];
      spare := 0;
      deletitionListCount, added, deleted, thresholdCounter := 0, 0, 0, 0;
    }

    method AddNode(n: Node, globalEpoch: nat)
      requires Valid()
      modifies this
      ensures Valid() && labels == Add(old(labels), n, globalEpoch)
      ensures forall x :: Times(labels, x) == Times(old(labels), x) + if x == n then 1 else 0
      ensures added == old(added) + 1 && deleted == old(deleted) && thresholdCounter == old(thresholdCounter)
      ensures |labels| + spare >= old(|labels| + spare)
    {
      deletitionListCount := deletitionListCount + 1;
      if |labels| != 0 && |labels[0].nodes| < LABEL_CAPACITY {
        labels := [Label(labels[0].nodes + [n], globalEpoch)] + labels[1..];
      } else {
        if spare != 0 {
          spare := spare - 1;
        }
        labels := [Label([n], globalEpoch)] + labels;
      }
      added := added + 1;
      AllAddTimes(old(labels), n, globalEpoch);
    }

    /** The label at position `k` of the chain is unlinked and put on the free chain. */
    method Remove(k: nat)
      requires Valid() && k < |labels|
      modifies this
      ensures Valid() && labels == Without(old(labels), k)
      ensures added == old(added) && deleted == old(deleted) + |old(labels)[k].nodes|
      ensures thresholdCounter == old(thresholdCounter)
      ensures |labels| + spare == old(|labels| + spare)
    {
      var gone := labels[k];
      ghost var all := labels;
      labels := labels[..k] + labels[k + 1..];
      assert labels == Without(all, k);
      deletitionListCount := deletitionListCount - |gone.nodes|;
      spare := spare + 1;
      deleted := deleted + |gone.nodes|;
    }

    /** The cleanup loop: exactly the labels older than `oldest` are freed and removed. */
    method Cleanup(oldest: Epoch) returns (freed: seq<Node>)
      requires Valid()
      modifies this
      ensures Valid() && labels == Kept(old(labels), oldest) && freed == Freed(old(labels), oldest)
      ensures forall x :: Times(labels, x) + TimesIn(freed, x) == Times(old(labels), x)
      ensures added == old(added) && deleted == old(deleted) + |freed| && thresholdCounter == 0
      ensures |labels| + spare == old(|labels| + spare)
    {
      ghost var all := labels;
      freed := [];
      ProgressEnds(all, oldest, all, 0, []);
      var k: nat := 0;
      ghost var seen: nat := 0;
      while k < |labels|
        invariant Valid() && added == old(added)
        invariant Progress(labels, k, all, seen, oldest, freed)
        invariant deleted == old(deleted) + |freed|
        invariant |labels| + spare == old(|labels| + spare)
        decreases |labels| - k
      {
        if Older(labels[k].epoche, oldest) {
          DropOne(labels, k, all, seen, oldest, freed);
          freed := freed + labels[k].nodes;
          Remove(k);
        } else {
          KeepOne(labels, k, all, seen, oldest, freed);
          k := k + 1;
        }
        seen := seen + 1;
      }
      ProgressEnds(all, oldest, labels, seen, freed);
      thresholdCounter := 0;
      AllKeptAndFreed(all, oldest);
    }
  }
}
