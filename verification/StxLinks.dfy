/** The doubly linked list of the leaves of a B+ tree, and the numbers of nodes that the tree keeps. */
module StxLinks {
  import opened Options

  /** A leaf, as its neighbours and the ends of the list refer to it. */
  type Id = int

  /** Leaves are allocated from `nextId` on. */
  datatype Links = Links(next: map<Id, Option<Id>>, prev: map<Id, Option<Id>>, head: Option<Id>, tail: Option<Id>,
                         leaves: int, innerNodes: int, nextId: Id)

  // ---- What the operations do to the list ----

  function NextOf(l: Links, id: Id): Option<Id> {
    if id in l.next then l.next[id] else None
  }

  /** A new leaf has no neighbours. */
  function AllocateLeaf(l: Links): Links {
    l.(next := l.next[l.nextId := None], prev := l.prev[l.nextId := None],
       leaves := l.leaves + 1, nextId := l.nextId + 1)
  }

  function FreeLeaf(l: Links, id: Id): Links {
    l.(next := l.next - {id}, prev := l.prev - {id}, leaves := l.leaves - 1)
  }

  /** The first leaf of an empty tree. */
  function FirstLeaf(l: Links): Links {
    AllocateLeaf(l).(head := Some(l.nextId), tail := Some(l.nextId))
  }

  /** The only leaf goes. */
  function LastLeafGoes(l: Links, id: Id): Links {
    FreeLeaf(l, id).(head := None, tail := None)
  }

  /** A new leaf comes after leaf `id`. */
  function SplitLeaf(l: Links, id: Id): Links {
    var newLeaf, after := l.nextId, NextOf(l, id);
    var m := AllocateLeaf(l);
    var right := m.(next := m.next[newLeaf := after]);
    var mended := if after.None? then right.(tail := Some(newLeaf))
                  else right.(prev := right.prev[after.value := Some(newLeaf)]);
    mended.(next := mended.next[id := Some(newLeaf)], prev := mended.prev[newLeaf := Some(id)])
  }

  /** Leaf `right` is emptied into leaf `left` before it, and freed. */
  function MergeLeaves(l: Links, left: Id, right: Id): Links {
    var after := NextOf(l, right);
    var m := l.(next := l.next[left := after]);
    FreeLeaf(if after.Some? then m.(prev := m.prev[after.value := Some(left)]) else m.(tail := Some(left)), right)
  }

  /** A new leaf comes at the end. */
  function AppendLeaf(l: Links): Links {
    var newLeaf, m := l.nextId, AllocateLeaf(l);
    var tied := if m.tail.None? then m.(head := Some(newLeaf))
                else m.(next := m.next[m.tail.value := Some(newLeaf)], prev := m.prev[newLeaf := m.tail]);
    tied.(tail := Some(newLeaf))
  }

  function MoreInner(l: Links): Links {
    l.(innerNodes := l.innerNodes + 1)
  }

  function FewerInner(l: Links): Links {
    l.(innerNodes := l.innerNodes - 1)
  }

  // ---- What the list is to be ----

  function At(ids: seq<Id>, i: int): Option<Id> {
    if 0 <= i < |ids| then Some(ids[i]) else None
  }

  ghost predicate LinkedAt(l: Links, ids: seq<Id>, i: int)
    requires 0 <= i < |ids|
  {
    && ids[i] < l.nextId && ids[i] in l.next && ids[i] in l.prev
    && l.next[ids[i]] == At(ids, i + 1) && l.prev[ids[i]] == At(ids, i - 1)
  }

  ghost predicate Distinct(ids: seq<Id>) {
    forall i, j :: 0 <= i < j < |ids| ==> ids[i] != ids[j]
  }

  /** The list runs through exactly these leaves, forth and back, and as many are counted. */
  ghost predicate Linked(l: Links, ids: seq<Id>) {
    && Distinct(ids) && l.leaves == |ids| && l.head == At(ids, 0) && l.tail == At(ids, |ids| - 1)
    && forall i :: 0 <= i < |ids| ==> LinkedAt(l, ids, i)
  }

  /** What following `next` comes to, for at most `n` leaves. */
  function Walk(l: Links, from: Option<Id>, n: nat): seq<Id>
    decreases n
  {
    if n == 0 || from.None? then [] else [from.value] + Walk(l, NextOf(l, from.value), n - 1)
  }

  /** Following `next` from the head comes to all leaves in turn, and to nothing after them. */
  lemma WalkAll(l: Links, ids: seq<Id>, n: nat)
    requires Linked(l, ids) && n >= |ids|
    ensures Walk(l, l.head, n) == ids
  {
    WalkFrom(l, ids, 0, n);
  }

  lemma {:induction false} WalkFrom(l: Links, ids: seq<Id>, i: nat, n: nat)
    requires Linked(l, ids) && i <= |ids| <= i + n
    ensures Walk(l, At(ids, i), n) == ids[i..]
    decreases n
  {
    if i < |ids| {
      assert LinkedAt(l, ids, i);
      WalkFrom(l, ids, i + 1, n - 1);
    }
  }

  // ---- The list stays what it is to be ----

  /** The number of inner nodes has nothing to do with the list. */
  lemma InnerApart(l: Links, l': Links, ids: seq<Id>)
    requires Linked(l, ids) && l' == l.(innerNodes := l'.innerNodes)
    ensures Linked(l', ids)
  {
    forall i | 0 <= i < |ids| ensures LinkedAt(l', ids, i) {
      assert LinkedAt(l, ids, i);
    }
  }

  lemma FirstLeafLinked(l: Links)
    requires Linked(l, [])
    ensures Linked(FirstLeaf(l), [l.nextId])
  {
  }

  lemma LastLeafGoesLinked(l: Links, id: Id)
    requires Linked(l, [id])
    ensures Linked(LastLeafGoes(l, id), [])
  {
  }

  lemma AppendLeafLinked(l: Links, ids: seq<Id>)
    requires Linked(l, ids)
    ensures Linked(AppendLeaf(l), ids + [l.nextId])
  {
    var m, more := AppendLeaf(l), ids + [l.nextId];
    forall i | 0 <= i < |ids| ensures ids[i] < l.nextId {
      assert LinkedAt(l, ids, i);
    }
    forall i | 0 <= i < |more| ensures LinkedAt(m, more, i) {
      if i < |ids| {
        assert LinkedAt(l, ids, i);
      }
    }
  }

  lemma SplitLeafLinked(l: Links, a: seq<Id>, id: Id, c: seq<Id>)
    requires Linked(l, a + [id] + c)
    ensures Linked(SplitLeaf(l, id), a + [id, l.nextId] + c)
  {
    var ids, more, m := a + [id] + c, a + [id, l.nextId] + c, SplitLeaf(l, id);
    forall i | 0 <= i < |ids| ensures ids[i] < l.nextId {
      assert LinkedAt(l, ids, i);
    }
    assert LinkedAt(l, ids, |a|);
    forall i, j | 0 <= i < j < |more| ensures more[i] != more[j] {
      SplitIndex(a, id, l.nextId, c, i);
      SplitIndex(a, id, l.nextId, c, j);
    }
    forall i | 0 <= i < |more| ensures LinkedAt(m, more, i) {
      SplitAt(l, a, id, c, i);
    }
    SplitIndex(a, id, l.nextId, c, 0);
    SplitIndex(a, id, l.nextId, c, |more| - 1);
  }

  lemma SplitIndex(a: seq<Id>, id: Id, id': Id, c: seq<Id>, i: nat)
    requires i < |a| + 2 + |c|
    ensures var ids, more := a + [id] + c, a + [id, id'] + c;
            more[i] == if i <= |a| then ids[i] else if i == |a| + 1 then id' else ids[i - 1]
  {
  }

  lemma SplitAt(l: Links, a: seq<Id>, id: Id, c: seq<Id>, i: nat)
    requires Linked(l, a + [id] + c) && i < |a| + 2 + |c|
    ensures LinkedAt(SplitLeaf(l, id), a + [id, l.nextId] + c, i)
  {
    var ids, more, m := a + [id] + c, a + [id, l.nextId] + c, SplitLeaf(l, id);
    assert LinkedAt(l, ids, |a|) && ids[|a|] == id;
    SplitIndex(a, id, l.nextId, c, i);
    if i > 0 {
      SplitIndex(a, id, l.nextId, c, i - 1);
    }
    if i + 1 < |more| {
      SplitIndex(a, id, l.nextId, c, i + 1);
    }
    if i <= |a| {
      assert LinkedAt(l, ids, i);
    } else if i > |a| + 1 {
      assert LinkedAt(l, ids, i - 1);
    }
    if |a| + 1 < |ids| {
      assert LinkedAt(l, ids, |a| + 1);
    }
  }

  lemma MergeLeavesLinked(l: Links, a: seq<Id>, x: Id, y: Id, c: seq<Id>)
    requires Linked(l, a + [x, y] + c)
    ensures Linked(MergeLeaves(l, x, y), a + [x] + c)
  {
    var ids, less, m := a + [x, y] + c, a + [x] + c, MergeLeaves(l, x, y);
    assert LinkedAt(l, ids, |a| + 1) && ids[|a|] == x && ids[|a| + 1] == y;
    forall i, j | 0 <= i < j < |less| ensures less[i] != less[j] {
      SplitIndex(a, x, y, c, if i <= |a| then i else i + 1);
      SplitIndex(a, x, y, c, if j <= |a| then j else j + 1);
    }
    forall i | 0 <= i < |less| ensures LinkedAt(m, less, i) {
      MergeAt(l, a, x, y, c, i);
    }
    SplitIndex(a, x, y, c, 0);
    SplitIndex(a, x, y, c, |ids| - 1);
  }

  lemma MergeAt(l: Links, a: seq<Id>, x: Id, y: Id, c: seq<Id>, i: nat)
    requires Linked(l, a + [x, y] + c) && i < |a| + 1 + |c|
    ensures LinkedAt(MergeLeaves(l, x, y), a + [x] + c, i)
  {
    var ids, less, m := a + [x, y] + c, a + [x] + c, MergeLeaves(l, x, y);
    assert LinkedAt(l, ids, |a| + 1) && ids[|a|] == x && ids[|a| + 1] == y;
    var k := if i <= |a| then i else i + 1;
    assert LinkedAt(l, ids, k) && less[i] == ids[k];
    if i > 0 {
      assert less[i - 1] == ids[if i - 1 <= |a| then i - 1 else i];
    }
    if i + 1 < |less| {
      assert less[i + 1] == ids[if i + 1 <= |a| then i + 1 else i + 2];
    }
    if |a| + 2 < |ids| {
      assert LinkedAt(l, ids, |a| + 2);
    }
  }
}
