/** The B+ tree of the STX library as a value: pairs in the leaves, copies of subtree maxima above them. */
module StxTree {
  import opened Options
  import opened Slots
  import opened StxLinks

  type Key = int
  type Val = int

  datatype Item = Item(key: Key, val: Val)

  /** The number of slots of a node is fixed when the tree is compiled, and is at least eight. */
  type SlotCount = n: nat | 8 <= n witness 8
  const LEAF_SLOTS: SlotCount
  const INNER_SLOTS: SlotCount

  datatype Node =
    | Leaf(id: Id, items: seq<Item>)
    | Inner(level: nat, keys: seq<Key>, children: seq<Node>)

  function Level(n: Node): nat {
    if n.Leaf? then 0 else n.level
  }

  /** The number of slots in use: pairs in a leaf, keys in an inner node. */
  function SlotUse(n: Node): nat {
    if n.Leaf? then |n.items| else |n.keys|
  }

  function SlotMax(n: Node): nat {
    if n.Leaf? then LEAF_SLOTS else INNER_SLOTS
  }

  predicate IsFull(n: Node) {
    SlotUse(n) == SlotMax(n)
  }

  predicate IsFew(n: Node) {
    SlotUse(n) <= SlotMax(n) / 2
  }

  predicate IsUnderflow(n: Node) {
    SlotUse(n) < SlotMax(n) / 2
  }

  // ---- Contents ----

  function Items(n: Node): seq<Item> {
    match n
    case Leaf(_, items) => items
    case Inner(_, _, children) => Concat(children)
  }

  function Concat(children: seq<Node>): seq<Item> {
    if children == [] then [] else Items(children[0]) + Concat(children[1..])
  }

  lemma {:induction false} ConcatSplit(a: seq<Node>, b: seq<Node>)
    ensures Concat(a + b) == Concat(a) + Concat(b)
  {
    if a == [] {
      assert a + b == b;
    } else {
      ConcatSplit(a[1..], b);
      assert (a + b)[1..] == a[1..] + b && (a + b)[0] == a[0];
      Join(Items(a[0]), Concat(a[1..]), Concat(b));
    }
  }

  lemma ConcatOne(c: Node)
    ensures Concat([c]) == Items(c)
  {
    assert [c][1..] == [];
    assert Concat([c]) == Items(c) + Concat([c][1..]);
  }

  lemma ConcatTwo(c: Node, d: Node)
    ensures Concat([c, d]) == Items(c) + Items(d)
  {
    assert [c, d][1..] == [d] && [d][1..] == [];
    assert Concat([d]) == Items(d) + Concat([d][1..]);
  }

  /** The children before, at and after a place. */
  lemma ConcatAt(children: seq<Node>, i: nat)
    requires i < |children|
    ensures Concat(children) == Concat(children[..i]) + Items(children[i]) + Concat(children[i + 1..])
  {
    var rest := children[i..];
    assert children == children[..i] + rest;
    ConcatSplit(children[..i], rest);
    assert rest[1..] == children[i + 1..];
  }

  // ---- Leaves and inner nodes ----

  /** The leaves in order, and how many inner nodes there are. */
  datatype Census = Census(ids: seq<Id>, inners: nat)

  function Plus(a: Census, b: Census): Census {
    Census(a.ids + b.ids, a.inners + b.inners)
  }

  /** With the inner node above. */
  function Above(c: Census): Census {
    Census(c.ids, c.inners + 1)
  }

  function CensusOf(n: Node): Census {
    match n
    case Leaf(id, _) => Census([id], 0)
    case Inner(_, _, children) => Above(CensusAll(children))
  }

  function CensusAll(children: seq<Node>): Census {
    if children == [] then Census([], 0) else Plus(CensusOf(children[0]), CensusAll(children[1..]))
  }

  lemma PlusJoin(a: Census, b: Census, c: Census)
    ensures Plus(a, Plus(b, c)) == Plus(Plus(a, b), c)
  {
    Join(a.ids, b.ids, c.ids);
  }

  lemma PlusNone(a: Census)
    ensures Plus(Census([], 0), a) == a && Plus(a, Census([], 0)) == a
  {
  }

  lemma {:induction false} CensusSplit(a: seq<Node>, b: seq<Node>)
    ensures CensusAll(a + b) == Plus(CensusAll(a), CensusAll(b))
  {
    if a == [] {
      assert a + b == b && CensusAll(a) == Census([], 0);
      PlusNone(CensusAll(b));
    } else {
      assert a + b == [a[0]] + a[1..] + b && [a[0]] + a[1..] == a;
      CensusSplit(a[1..], b);
      CensusFirst(a[0], a[1..], b, a + b);
    }
  }

  lemma CensusFirst(c: Node, a: seq<Node>, b: seq<Node>, s: seq<Node>)
    requires s == [c] + a + b && CensusAll(a + b) == Plus(CensusAll(a), CensusAll(b))
    ensures CensusAll(s) == Plus(CensusAll([c] + a), CensusAll(b))
  {
    assert s[0] == c && s[1..] == a + b;
    var t := [c] + a;
    assert t[0] == c && t[1..] == a;
    PlusJoin(CensusOf(c), CensusAll(a), CensusAll(b));
  }

  lemma CensusTwo(c: Node, d: Node)
    ensures CensusAll([c]) == CensusOf(c) && CensusAll([c, d]) == Plus(CensusOf(c), CensusOf(d))
  {
    assert [c, d][1..] == [d] && [d][1..] == [] && [c][1..] == [];
    assert CensusAll([d]) == Plus(CensusOf(d), CensusAll([d][1..]));
    assert CensusAll([c]) == Plus(CensusOf(c), CensusAll([c][1..]));
  }

  lemma CensusFour(a: seq<Node>, c: Node, d: Node, rest: seq<Node>)
    ensures CensusAll(a + ([c, d] + rest)) == Plus(Plus(CensusAll(a), Plus(CensusOf(c), CensusOf(d))), CensusAll(rest))
  {
    CensusSplit(a, [c, d] + rest);
    CensusSplit([c, d], rest);
    CensusTwo(c, d);
    PlusJoin(CensusAll(a), Plus(CensusOf(c), CensusOf(d)), CensusAll(rest));
  }

  lemma CensusAt(children: seq<Node>, i: nat)
    requires i < |children|
    ensures CensusAll(children)
            == Plus(Plus(CensusAll(children[..i]), CensusOf(children[i])), CensusAll(children[i + 1..]))
  {
    var rest := children[i..];
    assert children == children[..i] + rest;
    CensusSplit(children[..i], rest);
    assert rest[1..] == children[i + 1..];
    PlusJoin(CensusAll(children[..i]), CensusOf(children[i]), CensusAll(children[i + 1..]));
  }

  /** Between `before` and `after` of the list, one part has been put for another, and the inner nodes are
      counted accordingly. */
  ghost predicate Relinked(before: seq<Id>, was: Census, l: Links, now: Census, l': Links, after: seq<Id>) {
    Linked(l', before + now.ids + after) && l'.innerNodes - l.innerNodes == now.inners - was.inners
  }

  // ---- Order ----

  ghost predicate Sorted(s: seq<Item>) {
    forall i, j :: 0 <= i < j < |s| ==> s[i].key <= s[j].key
  }

  ghost predicate Below(s: seq<Item>, key: Key) {
    forall j :: 0 <= j < |s| ==> s[j].key < key
  }

  ghost predicate NotBelow(s: seq<Item>, key: Key) {
    forall j :: 0 <= j < |s| ==> key <= s[j].key
  }

  function LastKey(n: Node): Key {
    var s := Items(n);
    if s == [] then 0 else s[|s| - 1].key
  }

  // ---- The tree's own checks ----

  ghost predicate KeysOk(keys: seq<Key>, children: seq<Node>) {
    |children| == |keys| + 1 && forall i :: 0 <= i < |keys| ==> keys[i] == LastKey(children[i])
  }

  /** What `verify` asks of a subtree, fill of its own root apart: uniform depth, order, separators that
      are the maxima of their subtrees, and all nodes below at least half full. */
  ghost predicate Ok(n: Node)
    decreases n, 0
  {
    && 1 <= SlotUse(n) <= SlotMax(n) && Sorted(Items(n))
    && (n.Inner? ==> n.level > 0 && KeysOk(n.keys, n.children) && ChildrenOk(n.children, n.level))
  }

  ghost predicate ChildrenOk(children: seq<Node>, level: nat)
    decreases children, 2
  {
    forall i :: 0 <= i < |children| ==> ChildOk(children[i], level)
  }

  ghost predicate ChildOk(c: Node, level: nat)
    decreases c, 1
  {
    Ok(c) && !IsUnderflow(c) && Level(c) + 1 == level
  }

  /** A subtree that may have run out of slots in use itself. */
  ghost predicate Sound(n: Node) {
    && SlotUse(n) <= SlotMax(n) && Sorted(Items(n))
    && (n.Inner? ==> n.level > 0 && KeysOk(n.keys, n.children) && ChildrenOk(n.children, n.level))
  }

  lemma SoundIsOk(n: Node)
    requires Sound(n) && SlotUse(n) >= 1
    ensures Ok(n)
  {
  }

  lemma ChildAt(n: Node, i: nat)
    requires Ok(n) && n.Inner? && i < |n.children|
    ensures ChildOk(n.children[i], n.level) && Ok(n.children[i])
  {
    assert ChildrenOk(n.children, n.level);
  }

  lemma {:induction false} NonEmpty(n: Node)
    requires Ok(n)
    ensures Items(n) != []
  {
    if n.Inner? {
      assert ChildOk(n.children[0], n.level);
      NonEmpty(n.children[0]);
    }
  }

  /** Nothing in the first `i` children is above separator `i - 1`. */
  lemma {:induction false} BeforeSlot(n: Node, i: nat)
    requires Ok(n) && n.Inner? && 0 < i <= |n.keys|
    ensures forall j :: 0 <= j < |Concat(n.children[..i])| ==> Concat(n.children[..i])[j].key <= n.keys[i - 1]
  {
    var a := n.children[..i];
    assert ChildOk(n.children[i - 1], n.level);
    NonEmpty(n.children[i - 1]);
    ConcatAt(a, i - 1);
    assert a[..i - 1] + [a[i - 1]] == a && a[i..] == [];
    assert n.children == a + n.children[i..];
    ConcatSplit(a, n.children[i..]);
    var s := Concat(a);
    assert s[|s| - 1].key == n.keys[i - 1];
    assert forall j :: 0 <= j < |s| ==> Items(n)[j] == s[j];
  }

  /** The checks of `verify` on the keys of an inner node, one by one: they ascend, each is the maximum of
      the subtree on its left, and none in the subtree on its right is below it. */
  lemma VerifyKeys(n: Node, i: nat)
    requires Ok(n) && n.Inner? && i < |n.keys|
    ensures n.keys[i] == LastKey(n.children[i]) && NotBelow(Items(n.children[i + 1]), n.keys[i])
    ensures i + 1 < |n.keys| ==> n.keys[i] <= n.keys[i + 1]
  {
    var a, b, c := Concat(n.children[..i]), Items(n.children[i]), Concat(n.children[i + 1..]);
    ConcatAt(n.children, i);
    ChildAt(n, i);
    NonEmpty(n.children[i]);
    AfterSlot(a, b, c, n.keys[i]);
    var rest := n.children[i + 1..];
    assert Concat(rest) == Items(rest[0]) + Concat(rest[1..]);
    var first := Items(n.children[i + 1]);
    assert forall j :: 0 <= j < |first| ==> first[j] == c[j];
    ChildAt(n, i + 1);
    NonEmpty(n.children[i + 1]);
  }

  /** The slot the search takes: all pairs before it are below the key, all pairs after it are not. */
  lemma SlotDivides(n: Node, key: Key)
    requires Ok(n) && n.Inner?
    ensures var slot := Lower(n.keys, key);
            && slot < |n.children|
            && Items(n) == Concat(n.children[..slot]) + Items(n.children[slot]) + Concat(n.children[slot + 1..])
            && Below(Concat(n.children[..slot]), key) && NotBelow(Concat(n.children[slot + 1..]), key)
  {
    var slot := Lower(n.keys, key);
    LowerAt(n.keys, key);
    ConcatAt(n.children, slot);
    if slot > 0 {
      BeforeSlot(n, slot);
    }
    if slot < |n.keys| {
      assert ChildOk(n.children[slot], n.level);
      NonEmpty(n.children[slot]);
      AfterSlot(Concat(n.children[..slot]), Items(n.children[slot]), Concat(n.children[slot + 1..]), key);
    } else {
      assert n.children[slot + 1..] == [];
    }
  }

  lemma AfterSlot(a: seq<Item>, b: seq<Item>, c: seq<Item>, key: Key)
    requires Sorted(a + b + c) && b != [] && key <= b[|b| - 1].key
    ensures NotBelow(c, key)
  {
    var s := a + b + c;
    var last := |a| + |b| - 1;
    assert s[last] == b[|b| - 1];
    forall j | 0 <= j < |c| ensures key <= c[j].key {
      assert s[last + 1 + j] == c[j];
    }
  }

  // ---- Pairs put in and taken out ----

  /** The pair is put at its lower bound place. */
  ghost predicate Inserted(before: seq<Item>, after: seq<Item>, item: Item) {
    exists i :: InsertedAt(before, after, item, i)
  }

  ghost predicate InsertedAt(before: seq<Item>, after: seq<Item>, item: Item, i: int) {
    && 0 <= i <= |before| && after == InsertAt(before, i, item)
    && (forall j :: 0 <= j < i ==> before[j].key < item.key)
    && (forall j :: i <= j < |before| ==> item.key <= before[j].key)
  }

  /** The first pair with the key is taken out. */
  ghost predicate Erased(before: seq<Item>, after: seq<Item>, key: Key) {
    exists i :: ErasedAt(before, after, key, i)
  }

  ghost predicate ErasedAt(before: seq<Item>, after: seq<Item>, key: Key, i: int) {
    && 0 <= i < |before| && before[i].key == key && after == RemoveAt(before, i)
    && forall j :: 0 <= j < i ==> before[j].key < key
  }

  ghost predicate HasKey(s: seq<Item>, key: Key) {
    exists i :: 0 <= i < |s| && s[i].key == key
  }

  lemma InsertedWithin(a: seq<Item>, b: seq<Item>, b': seq<Item>, c: seq<Item>, item: Item)
    requires Inserted(b, b', item)
    requires Below(a, item.key) && NotBelow(c, item.key)
    ensures Inserted(a + b + c, a + b' + c, item)
  {
    var i :| InsertedAt(b, b', item, i);
    InsertWithin(a, b, c, i, item);
    assert InsertedAt(a + b + c, a + b' + c, item, |a| + i);
  }

  lemma ErasedWithin(a: seq<Item>, b: seq<Item>, b': seq<Item>, c: seq<Item>, key: Key)
    requires Erased(b, b', key) && Below(a, key)
    ensures Erased(a + b + c, a + b' + c, key)
  {
    var i :| ErasedAt(b, b', key, i);
    RemoveWithin(a, b, c, i);
    assert ErasedAt(a + b + c, a + b' + c, key, |a| + i);
  }

  lemma InsertedSorted(before: seq<Item>, after: seq<Item>, item: Item)
    requires Sorted(before) && Inserted(before, after, item)
    ensures Sorted(after) && |after| == |before| + 1
  {
    var i :| InsertedAt(before, after, item, i);
    forall x, y | 0 <= x < y < |after| ensures after[x].key <= after[y].key {
      InsertIndex(before, i, item, x);
      InsertIndex(before, i, item, y);
    }
  }

  lemma ErasedSorted(before: seq<Item>, after: seq<Item>, key: Key)
    requires Sorted(before) && Erased(before, after, key)
    ensures Sorted(after) && |after| == |before| - 1
  {
    var i :| ErasedAt(before, after, key, i);
    forall x, y | 0 <= x < y < |after| ensures after[x].key <= after[y].key {
      RemoveIndex(before, i, x);
      RemoveIndex(before, i, y);
    }
  }

  /** The child the search takes has the key if any child has. */
  lemma KeyInChild(n: Node, key: Key)
    requires Ok(n) && n.Inner?
    ensures Lower(n.keys, key) < |n.children|
    ensures HasKey(Items(n), key) <==> HasKey(Items(n.children[Lower(n.keys, key)]), key)
  {
    var slot := Lower(n.keys, key);
    SlotDivides(n, key);
    LowerAt(n.keys, key);
    var a, b, c := Concat(n.children[..slot]), Items(n.children[slot]), Concat(n.children[slot + 1..]);
    if slot < |n.keys| {
      assert ChildOk(n.children[slot], n.level);
      NonEmpty(n.children[slot]);
    } else {
      assert n.children[slot + 1..] == [];
    }
    KeyInMiddle(a, b, c, key);
  }

  lemma KeyInMiddle(a: seq<Item>, b: seq<Item>, c: seq<Item>, key: Key)
    requires Sorted(a + b + c) && Below(a, key) && (c == [] || (b != [] && key <= b[|b| - 1].key))
    ensures HasKey(a + b + c, key) <==> HasKey(b, key)
  {
    var s := a + b + c;
    if HasKey(b, key) {
      var i :| 0 <= i < |b| && b[i].key == key;
      assert s[|a| + i].key == key;
    }
    if HasKey(s, key) {
      var i :| 0 <= i < |s| && s[i].key == key;
      assert forall j :: 0 <= j < |a| ==> s[j] == a[j];
      if i < |a| + |b| {
        assert b[i - |a|].key == key;
      } else {
        assert s[|a| + |b| - 1].key <= s[i].key;
        assert b[|b| - 1].key == key;
      }
    }
  }

  // ---- Rows of children ----

  lemma SortedParts(a: seq<Item>, b: seq<Item>)
    requires Sorted(a + b)
    ensures Sorted(a) && Sorted(b)
  {
    var s := a + b;
    assert forall i :: 0 <= i < |a| ==> s[i] == a[i];
    assert forall i :: 0 <= i < |b| ==> s[|a| + i] == b[i];
  }

  lemma LastOf(a: seq<Item>, b: seq<Item>)
    requires b != []
    ensures (a + b)[|a + b| - 1] == b[|b| - 1]
  {
  }

  /** The last key of a row is that of its last child. */
  lemma LastOfRow(children: seq<Node>)
    requires children != [] && Items(children[|children| - 1]) != []
    ensures Concat(children) != [] && Concat(children)[|Concat(children)| - 1].key == LastKey(children[|children| - 1])
  {
    var i := |children| - 1;
    ConcatAt(children, i);
    assert children[i + 1..] == [];
    LastOf(Concat(children[..i]), Items(children[i]));
  }

  /** A row of keys and children that may be too long for a node. */
  ghost predicate WideOk(level: nat, keys: seq<Key>, children: seq<Node>) {
    KeysOk(keys, children) && Sorted(Concat(children)) && level > 0 && ChildrenOk(children, level)
  }

  /** Cutting a long row gives two sound nodes. */
  lemma CutOk(level: nat, keys: seq<Key>, children: seq<Node>, m: nat)
    requires WideOk(level, keys, children) && 1 <= m <= INNER_SLOTS && m + 1 < |keys| <= m + 1 + INNER_SLOTS
    ensures var left := Inner(level, keys[..m], children[..m + 1]);
            var right := Inner(level, keys[m + 1..], children[m + 1..]);
            Ok(left) && Ok(right) && keys[m] == LastKey(left) && Concat(children) == Items(left) + Items(right)
  {
    assert children == children[..m + 1] + children[m + 1..];
    ConcatSplit(children[..m + 1], children[m + 1..]);
    SortedParts(Concat(children[..m + 1]), Concat(children[m + 1..]));
    assert ChildOk(children[m], level);
    NonEmpty(children[m]);
    LastOfRow(children[..m + 1]);
  }

  // ---- The whole tree ----

  datatype Tree = Tree(root: Option<Node>, itemCount: nat, links: Links)

  function Contents(t: Tree): seq<Item> {
    if t.root.None? then [] else Items(t.root.value)
  }

  function TreeCensus(t: Tree): Census {
    if t.root.None? then Census([], 0) else CensusOf(t.root.value)
  }

  /** What `verify` asks of the whole tree: sound nodes, a list that runs through exactly the leaves, and the
      three counts. */
  ghost predicate TreeOk(t: Tree) {
    && (t.root.Some? ==> Ok(t.root.value)) && t.itemCount == |Contents(t)|
    && Linked(t.links, TreeCensus(t).ids) && t.links.innerNodes == TreeCensus(t).inners
  }

  // ---- The checks of the list of leaves ----

  /** The leaves in order. */
  function Leaves(n: Node): seq<Node> {
    match n
    case Leaf(_, _) => [n]
    case Inner(_, _, children) => LeavesOfAll(children)
  }

  function LeavesOfAll(children: seq<Node>): seq<Node> {
    if children == [] then [] else Leaves(children[0]) + LeavesOfAll(children[1..])
  }

  function IdOf(n: Node): Id {
    if n.Leaf? then n.id else 0
  }

  function Ids(leaves: seq<Node>): seq<Id> {
    seq(|leaves|, i requires 0 <= i < |leaves| => IdOf(leaves[i]))
  }

  /** The leaves hold the contents, and their ids are those of the census. */
  lemma {:induction false} LeavesHold(n: Node)
    ensures Concat(Leaves(n)) == Items(n) && Ids(Leaves(n)) == CensusOf(n).ids
    ensures forall i :: 0 <= i < |Leaves(n)| ==> Leaves(n)[i].Leaf?
    decreases n, 0
  {
    if n.Leaf? {
      ConcatOne(n);
    } else {
      LeavesOfAllHold(n.children);
    }
  }

  lemma {:induction false} LeavesOfAllHold(children: seq<Node>)
    ensures Concat(LeavesOfAll(children)) == Concat(children) && Ids(LeavesOfAll(children)) == CensusAll(children).ids
    ensures forall i :: 0 <= i < |LeavesOfAll(children)| ==> LeavesOfAll(children)[i].Leaf?
    decreases children, 1
  {
    if children != [] {
      LeavesHold(children[0]);
      LeavesOfAllHold(children[1..]);
      ConcatSplit(Leaves(children[0]), LeavesOfAll(children[1..]));
      assert Ids(LeavesOfAll(children)) == Ids(Leaves(children[0])) + Ids(LeavesOfAll(children[1..]));
    }
  }

  lemma {:induction false} LeavesNonEmpty(n: Node, i: nat)
    requires Ok(n) && i < |Leaves(n)|
    ensures Items(Leaves(n)[i]) != []
    decreases n, 0
  {
    if n.Inner? {
      assert ChildrenOk(n.children, n.level);
      LeavesOfAllNonEmpty(n.children, n.level, i);
    }
  }

  lemma {:induction false} LeavesOfAllNonEmpty(children: seq<Node>, level: nat, i: nat)
    requires ChildrenOk(children, level) && i < |LeavesOfAll(children)|
    ensures Items(LeavesOfAll(children)[i]) != []
    decreases children, 1
  {
    assert ChildOk(children[0], level);
    if i < |Leaves(children[0])| {
      LeavesNonEmpty(children[0], i);
    } else {
      assert ChildrenOk(children[1..], level);
      LeavesOfAllNonEmpty(children[1..], level, i - |Leaves(children[0])|);
    }
  }

  /** Every check on the list of leaves.  Following `next` from the head comes to the leaves in order; before
      the first and after the last there is none; neighbours refer to each other; each has pairs, in order, up
      to those of the next leaf; and together they have as many as are counted. */
  lemma VerifyLeafLinks(t: Tree, i: nat)
    requires TreeOk(t) && t.root.Some? && i < |Leaves(t.root.value)|
    ensures var leaves, l := Leaves(t.root.value), t.links;
            && Walk(l, l.head, |leaves|) == Ids(leaves) && |Concat(leaves)| == t.itemCount && l.leaves == |leaves|
            && leaves[i].Leaf? && leaves[i].items != [] && Sorted(leaves[i].items)
            && leaves[i].id in l.next && leaves[i].id in l.prev
            && l.next[leaves[i].id] == (if i + 1 < |leaves| then Some(IdOf(leaves[i + 1])) else None)
            && l.prev[leaves[i].id] == (if i > 0 then Some(IdOf(leaves[i - 1])) else None)
            && (i == 0 <==> l.head == Some(leaves[i].id)) && (i + 1 == |leaves| <==> l.tail == Some(leaves[i].id))
            && (i + 1 < |leaves| ==> NotBelow(Items(leaves[i + 1]), LastKey(leaves[i])))
  {
    var n, l := t.root.value, t.links;
    var leaves, ids := Leaves(n), CensusOf(n).ids;
    LeavesHold(n);
    WalkAll(l, ids, |ids|);
    assert LinkedAt(l, ids, i) && ids[i] == leaves[i].id;
    LeavesNonEmpty(n, i);
    ConcatAt(leaves, i);
    var a, b, c := Concat(leaves[..i]), Items(leaves[i]), Concat(leaves[i + 1..]);
    SortedParts(a + b, c);
    SortedParts(a, b);
    if i + 1 < |leaves| {
      AfterSlot(a, b, c, LastKey(leaves[i]));
      var rest := leaves[i + 1..];
      var first := Items(rest[0]);
      assert c == first + Concat(rest[1..]);
      forall j | 0 <= j < |first| ensures LastKey(leaves[i]) <= first[j].key {
        assert first[j] == c[j];
      }
    }
  }
}
