/** The two kinds of page of the B-tree with optimistic lock coupling: sorted keys, searched, grown and
    halved in place. */
module OlcNodes {
  import opened Options
  import opened Slots

  type Key = int
  type Val = int

  /** Pages of 4096 bytes with a header of 64, eight bytes to a key, a payload or a pointer. */
  const LEAF_MAX: nat := 252
  const INNER_MAX: nat := 252

  ghost predicate Ascending(keys: seq<Key>) {
    forall i, j :: 0 <= i < j < |keys| ==> keys[i] < keys[j]
  }

  lemma LowerIs(keys: seq<Key>, k: Key, r: nat)
    requires Ascending(keys) && r <= |keys|
    requires r > 0 ==> keys[r - 1] < k
    requires r < |keys| ==> k <= keys[r]
    ensures Lower(keys, k) == r
  {
    LowerAt(keys, k);
  }

  datatype Body =
    | Leaf(keys: seq<Key>, vals: seq<Val>)
    | Inner(keys: seq<Key>, children: seq<nat>)

  function LeafGet(b: Body, k: Key): Option<Val>
    requires b.Leaf? && |b.keys| == |b.vals|
  {
    var pos := Lower(b.keys, k);
    if pos < |b.keys| && b.keys[pos] == k then Some(b.vals[pos]) else None
  }

  function LeafInsert(b: Body, k: Key, v: Val): Body
    requires b.Leaf? && |b.keys| == |b.vals|
  {
    var pos := Lower(b.keys, k);
    if pos < |b.keys| && b.keys[pos] == k then b.(vals := b.vals[pos := v])
    else Leaf(InsertAt(b.keys, pos, k), InsertAt(b.vals, pos, v))
  }

  /** A child goes in to the right of the one it was split from. */
  function InnerInsert(b: Body, sep: Key, child: nat): Body
    requires b.Inner? && |b.children| == |b.keys| + 1
  {
    var pos := Lower(b.keys, sep);
    Inner(InsertAt(b.keys, pos, sep), InsertAt(b.children, pos + 1, child))
  }

  function IsFull(b: Body): bool {
    if b.Leaf? then |b.keys| == LEAF_MAX else |b.keys| == INNER_MAX - 1
  }

  datatype Halves = Halves(left: Body, right: Body, sep: Key)

  /** Splits a page: a leaf keeps its lower half, whose last key separates; an inner page gives the key
      between the halves away. */
  function Halve(b: Body): Halves
    requires if b.Leaf? then |b.keys| == |b.vals| >= 2 else |b.keys| >= 2 && |b.children| == |b.keys| + 1
  {
    var n := |b.keys| / 2;
    if b.Leaf? then
      Halves(Leaf(b.keys[..n], b.vals[..n]), Leaf(b.keys[n..], b.vals[n..]), b.keys[n - 1])
    else
      Halves(Inner(b.keys[..n - 1], b.children[..n]), Inner(b.keys[n..], b.children[n..]), b.keys[n - 1])
  }

  // ---- What the operations on a page mean ----

  lemma LowerFinds(keys: seq<Key>, k: Key)
    requires Ascending(keys)
    ensures k in keys <==> Lower(keys, k) < |keys| && keys[Lower(keys, k)] == k
  {
    if k in keys {
      var i :| 0 <= i < |keys| && keys[i] == k;
      LowerIs(keys, k, i);
    }
  }

  lemma InsertAscends(keys: seq<Key>, k: Key)
    requires Ascending(keys) && k !in keys
    ensures Ascending(InsertAt(keys, Lower(keys, k), k))
  {
    var pos := Lower(keys, k);
    LowerAt(keys, k);
    assert pos < |keys| ==> keys[pos] in keys;
    Ascends(keys, pos, k);
  }

  lemma Ascends(keys: seq<Key>, pos: nat, k: Key)
    requires Ascending(keys) && pos <= |keys|
    requires (pos > 0 ==> keys[pos - 1] < k) && (pos < |keys| ==> k < keys[pos])
    ensures Ascending(InsertAt(keys, pos, k))
  {
    var longer := InsertAt(keys, pos, k);
    forall i, j | 0 <= i < j < |longer| ensures longer[i] < longer[j] {
      assert i < pos ==> longer[i] == keys[i];
      assert i > pos ==> longer[i] == keys[i - 1];
      assert j < pos ==> longer[j] == keys[j];
      assert j > pos ==> longer[j] == keys[j - 1];
    }
  }

  ghost predicate LeafOk(b: Body) {
    b.Leaf? && |b.keys| == |b.vals| && Ascending(b.keys)
  }

  lemma GetAt(b: Body, i: nat)
    requires LeafOk(b) && i < |b.keys|
    ensures LeafGet(b, b.keys[i]) == Some(b.vals[i])
  {
    LowerIs(b.keys, b.keys[i], i);
  }

  lemma GetNone(b: Body, x: Key)
    requires LeafOk(b) && x !in b.keys
    ensures LeafGet(b, x) == None
  {
    LowerFinds(b.keys, x);
  }

  lemma InsertOk(b: Body, k: Key, v: Val)
    requires LeafOk(b)
    ensures LeafOk(LeafInsert(b, k, v)) && |LeafInsert(b, k, v).keys| <= |b.keys| + 1
    ensures forall y :: y in LeafInsert(b, k, v).keys <==> y in b.keys || y == k
  {
    LowerFinds(b.keys, k);
    if k !in b.keys {
      InsertAscends(b.keys, k);
      assert b.keys == b.keys[..Lower(b.keys, k)] + b.keys[Lower(b.keys, k)..];
    }
  }

  lemma InsertGetOther(b: Body, k: Key, v: Val, i: nat)
    requires LeafOk(b) && i < |b.keys| && b.keys[i] != k
    ensures LeafOk(LeafInsert(b, k, v)) && LeafGet(LeafInsert(b, k, v), b.keys[i]) == Some(b.vals[i])
  {
    InsertOk(b, k, v);
    LowerFinds(b.keys, k);
    var pos := Lower(b.keys, k);
    if k in b.keys {
      GetAt(LeafInsert(b, k, v), i);
    } else {
      var j := if i < pos then i else i + 1;
      InsertIndex(b.keys, pos, k, j);
      InsertIndex(b.vals, pos, v, j);
      GetAt(LeafInsert(b, k, v), j);
    }
  }

  /** A leaf is a map: an insertion changes what it gives for the key, and for nothing else. */
  lemma InsertGet(b: Body, k: Key, v: Val, x: Key)
    requires LeafOk(b)
    ensures LeafOk(LeafInsert(b, k, v))
    ensures LeafGet(LeafInsert(b, k, v), x) == if x == k then Some(v) else LeafGet(b, x)
  {
    InsertOk(b, k, v);
    if x == k {
      LowerFinds(b.keys, k);
      GetAt(LeafInsert(b, k, v), Lower(b.keys, k));
    } else if x in b.keys {
      var i :| 0 <= i < |b.keys| && b.keys[i] == x;
      GetAt(b, i);
      InsertGetOther(b, k, v, i);
    } else {
      GetNone(b, x);
      GetNone(LeafInsert(b, k, v), x);
    }
  }

  lemma HalvesOk(b: Body)
    requires LeafOk(b) && |b.keys| >= 2
    ensures LeafOk(Halve(b).left) && LeafOk(Halve(b).right)
    ensures forall x :: x in Halve(b).left.keys ==> x in b.keys && x <= Halve(b).sep
    ensures forall x :: x in Halve(b).right.keys ==> x in b.keys && x > Halve(b).sep
  {
  }

  /** The two halves of a leaf hold what it held, the keys up to the separator on the left. */
  lemma HalvesGet(b: Body, x: Key)
    requires LeafOk(b) && |b.keys| >= 2
    ensures LeafOk(Halve(b).left) && LeafOk(Halve(b).right)
    ensures LeafGet(b, x) == if x <= Halve(b).sep then LeafGet(Halve(b).left, x) else LeafGet(Halve(b).right, x)
  {
    var n := |b.keys| / 2;
    var h := Halve(b);
    HalvesOk(b);
    if x in b.keys {
      var i :| 0 <= i < |b.keys| && b.keys[i] == x;
      GetAt(b, i);
      if i < n {
        GetAt(h.left, i);
      } else {
        GetAt(h.right, i - n);
      }
    } else {
      GetNone(b, x);
      GetNone(h.left, x);
      GetNone(h.right, x);
    }
  }

  // ---- The pages as arrays ----

  /** A leaf page. */
  class LeafPage {
    var count: nat
    const keys: array<Key>
    const payloads: array<Val>

    ghost predicate Valid()
      reads this, keys, payloads
    {
      && keys.Length == payloads.Length == LEAF_MAX && keys != payloads
      && count <= LEAF_MAX && Ascending(keys[..count])
    }

    ghost function Contents(): Body
      requires Valid()
      reads this, keys, payloads
    {
      Leaf(keys[..count], payloads[..count])
    }

    constructor ()
      ensures Valid() && fresh(keys) && fresh(payloads) && Contents() == Leaf([], [])
    {
      keys, payloads := new Key[LEAF_MAX], new Val[LEAF_MAX];
      count := 0;
    }

    /** A binary search that looks before it tests: on an empty page it looks at an unused key. */
    method LowerBound(k: Key) returns (pos: nat)
      requires Valid()
      ensures count > 0 ==> pos == Lower(keys[..count], k)
      ensures count == 0 ==> pos <= 1
    {
      pos := BinarySearch(keys, count, k);
    }

    method Insert(k: Key, p: Val)
      requires Valid() && count < LEAF_MAX
      modifies this, keys, payloads
      ensures Valid() && Contents() == LeafInsert(old(Contents()), k, p)
    {
      ghost var was := Contents();
      InsertOk(was, k, p);
      LowerAt(was.keys, k);
      if count > 0 {
        var pos := LowerBound(k);
        if pos < count && keys[pos] == k {
          payloads[pos] := p;
          assert payloads[..count] == was.vals[pos := p];
          return;
        }
        PutAt(keys, pos, count, k);
        PutAt(payloads, pos, count, p);
      } else {
        keys[0] := k;
        payloads[0] := p;
        assert keys[..1] == [k] && payloads[..1] == [p];
      }
      count := count + 1;
    }

    method Split() returns (newLeaf: LeafPage, sep: Key)
      requires Valid() && count >= 2
      modifies this
      ensures Valid() && newLeaf.Valid() && fresh(newLeaf) && fresh(newLeaf.keys) && fresh(newLeaf.payloads)
      ensures Halves(Contents(), newLeaf.Contents(), sep) == Halve(old(Contents()))
    {
      ghost var was := Contents();
      newLeaf := new LeafPage();
      newLeaf.count := count - count / 2;
      count := count - newLeaf.count;
      Copy(keys, count, newLeaf.count, newLeaf.keys);
      Copy(payloads, count, newLeaf.count, newLeaf.payloads);
      assert keys[..count] == was.keys[..count] && payloads[..count] == was.vals[..count];
      assert newLeaf.keys[..newLeaf.count] == was.keys[count..];
      assert newLeaf.payloads[..newLeaf.count] == was.vals[count..];
      sep := keys[count - 1];
    }
  }

  /** An inner page: one child more than keys. */
  class InnerPage {
    var count: nat
    const keys: array<Key>
    const children: array<nat>

    ghost predicate Valid()
      reads this, keys, children
    {
      && keys.Length == children.Length == INNER_MAX && (keys as object) != (children as object)
      && count < INNER_MAX && Ascending(keys[..count])
    }

    ghost function Contents(): Body
      requires Valid()
      reads this, keys, children
    {
      Inner(keys[..count], children[..count + 1])
    }

    constructor ()
      ensures Valid() && fresh(keys) && fresh(children) && count == 0
    {
      keys, children := new Key[INNER_MAX], new nat[INNER_MAX];
      count := 0;
    }

    method Insert(k: Key, child: nat)
      requires Valid() && 0 < count < INNER_MAX - 1 && k !in keys[..count]
      modifies this, keys, children
      ensures Valid() && Contents() == InnerInsert(old(Contents()), k, child)
    {
      ghost var was := Contents();
      InsertAscends(was.keys, k);
      var pos := BinarySearch(keys, count, k);
      PutAt(keys, pos, count, k);
      PutAfter(children, pos, count + 1, child);
      count := count + 1;
    }

    method Split() returns (newInner: InnerPage, sep: Key)
      requires Valid() && count >= 2
      modifies this
      ensures Valid() && newInner.Valid() && fresh(newInner) && fresh(newInner.keys) && fresh(newInner.children)
      ensures Halves(Contents(), newInner.Contents(), sep) == Halve(old(Contents()))
    {
      ghost var was := Contents();
      newInner := new InnerPage();
      newInner.count := count - count / 2;
      count := count - newInner.count - 1;
      sep := keys[count];
      Copy(keys, count + 1, newInner.count + 1, newInner.keys);
      Copy(children, count + 1, newInner.count + 1, newInner.children);
      assert keys[..count] == was.keys[..count] && children[..count + 1] == was.children[..count + 1];
      assert newInner.keys[..newInner.count] == was.keys[count + 1..];
      assert newInner.children[..newInner.count + 1] == was.children[count + 1..];
    }
  }

  method BinarySearch(keys: array<Key>, count: nat, k: Key) returns (pos: nat)
    requires count <= keys.Length && keys.Length > 0 && Ascending(keys[..count])
    ensures count > 0 ==> pos == Lower(keys[..count], k)
    ensures count == 0 ==> pos <= 1
  {
    var lower, upper := 0, count;
    var again := true;
    while again
      invariant lower <= upper <= count || (count == 0 && upper == 0 && lower <= 1 && !again)
      invariant again && count > 0 ==> lower < upper
      invariant count == 0 && again ==> lower == 0
      invariant count > 0 ==> (lower > 0 ==> keys[lower - 1] < k) && (upper < count ==> k <= keys[upper])
      invariant !again ==> lower >= upper
      decreases again, upper - lower
    {
      var mid := (upper - lower) / 2 + lower;
      if k < keys[mid] {
        upper := mid;
      } else if k > keys[mid] {
        lower := mid + 1;
      } else {
        if count > 0 {
          LowerIs(keys[..count], k, mid);
        }
        return mid;
      }
      again := lower < upper;
    }
    if count > 0 {
      LowerIs(keys[..count], k, lower);
    }
    return lower;
  }

  /** Copies `num` elements from `start` on to the front of another array. */
  method Copy<T>(from: array<T>, start: nat, num: nat, to: array<T>)
    requires start + num <= from.Length && num <= to.Length && from != to
    modifies to
    ensures to[..num] == from[start..start + num]
  {
    forall i | 0 <= i < num {
      to[i] := from[start + i];
    }
  }

  /** Moves the elements from `pos` to `count` one place up and puts `x` at `pos`. */
  method PutAt<T>(a: array<T>, pos: nat, count: nat, x: T)
    requires pos <= count < a.Length
    modifies a
    ensures a[..count + 1] == InsertAt(old(a[..count]), pos, x)
  {
    forall i | pos < i <= count {
      a[i] := a[i - 1];
    }
    a[pos] := x;
  }

  /** Puts `x` at `pos` in the same way and then changes places with its right neighbour. */
  method PutAfter<T>(a: array<T>, pos: nat, count: nat, x: T)
    requires pos < count < a.Length
    modifies a
    ensures a[..count + 1] == InsertAt(old(a[..count]), pos + 1, x)
  {
    PutAt(a, pos, count, x);
    assert a[..count + 1][pos + 1] == old(a[..count])[pos];
    a[pos], a[pos + 1] := a[pos + 1], a[pos];
  }
}
