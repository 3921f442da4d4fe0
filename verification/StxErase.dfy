/** Removal from the B+ tree: the first pair with a key, with merges and shifts where a node gets too thin
    and collapse at the root. */
module StxErase {
  import opened Options
  import opened Slots
  import opened StxLinks
  import opened StxTree
  import opened StxInsert

  /** The subtree without the pair, its new maximum where that has changed, and the list of leaves and the
      counts of nodes. */
  datatype Out = Missing | Gone(node: Node, lastKey: Option<Key>, links: Links)

  function EraseLeaf(id: Id, items: seq<Item>, key: Key, links: Links): Out {
    var slot := Lower(ItemKeys(items), key);
    if slot >= |items| || items[slot].key != key then Missing
    else
      var rest := RemoveAt(items, slot);
      Gone(Leaf(id, rest), if slot == |rest| && |rest| >= 1 then Some(rest[|rest| - 1].key) else None, links)
  }

  // ---- Two neighbours under one parent ----

  datatype Pair = Pair(left: Node, key: Key, right: Node)

  /** All of the right node goes to the left one. */
  function Merged(p: Pair): Node
    requires p.left.Leaf? == p.right.Leaf?
  {
    if p.left.Leaf? then Leaf(p.left.id, p.left.items + p.right.items)
    else Inner(p.left.level, p.left.keys + [p.key] + p.right.keys, p.left.children + p.right.children)
  }

  /** Half of what the right node has more goes to the left one. */
  function ShiftedLeft(p: Pair): Pair
    requires p.left.Leaf? == p.right.Leaf? && SlotUse(p.left) + 2 <= SlotUse(p.right)
    requires p.left.Inner? ==> |p.right.children| == |p.right.keys| + 1
  {
    var num := (SlotUse(p.right) - SlotUse(p.left)) / 2;
    if p.left.Leaf? then
      var items := p.left.items + p.right.items[..num];
      Pair(Leaf(p.left.id, items), items[|items| - 1].key, Leaf(p.right.id, p.right.items[num..]))
    else
      var keys, children := p.left.keys + [p.key] + p.right.keys[..num - 1], p.left.children + p.right.children[..num];
      Pair(Inner(p.left.level, keys, children), p.right.keys[num - 1],
           Inner(p.right.level, p.right.keys[num..], p.right.children[num..]))
  }

  /** Half of what the left node has more goes to the right one. */
  function ShiftedRight(p: Pair): Pair
    requires p.left.Leaf? == p.right.Leaf? && SlotUse(p.right) + 2 <= SlotUse(p.left)
    requires p.left.Inner? ==> |p.left.children| == |p.left.keys| + 1
  {
    var num := (SlotUse(p.left) - SlotUse(p.right)) / 2;
    var stay := SlotUse(p.left) - num;
    if p.left.Leaf? then
      var items := p.left.items[..stay];
      Pair(Leaf(p.left.id, items), items[|items| - 1].key, Leaf(p.right.id, p.left.items[stay..] + p.right.items))
    else
      var keys := p.left.keys[stay + 1..] + [p.key] + p.right.keys;
      var children := p.left.children[stay + 1..] + p.right.children;
      Pair(Inner(p.left.level, p.left.keys[..stay], p.left.children[..stay + 1]), p.left.keys[stay],
           Inner(p.right.level, keys, children))
  }

  /** What is asked of two neighbours: sound, at one level, in order, and the key the maximum of the left. */
  ghost predicate PairOk(p: Pair) {
    && Ok(p.left) && Ok(p.right) && Level(p.left) == Level(p.right) && p.left.Leaf? == p.right.Leaf?
    && p.key == LastKey(p.left) && Sorted(Items(p.left) + Items(p.right))
  }

  /** Two inner neighbours and the key between them make one row. */
  lemma RowOk(p: Pair)
    requires PairOk(p) && p.left.Inner?
    ensures WideOk(p.left.level, p.left.keys + [p.key] + p.right.keys, p.left.children + p.right.children)
    ensures Concat(p.left.children + p.right.children) == Items(p.left) + Items(p.right)
  {
    var l, r := p.left, p.right;
    ConcatSplit(l.children, r.children);
    ChildAt(l, |l.keys|);
    NonEmpty(l.children[|l.keys|]);
    LastOfRow(l.children);
    var keys, children := l.keys + [p.key] + r.keys, l.children + r.children;
    forall i | 0 <= i < |keys| ensures keys[i] == LastKey(children[i]) {
      if i > |l.keys| {
        assert keys[i] == r.keys[i - |l.children|] && children[i] == r.children[i - |l.children|];
      }
    }
    forall i | 0 <= i < |children| ensures ChildOk(children[i], l.level) {
      if i < |l.children| {
        ChildAt(l, i);
      } else {
        ChildAt(r, i - |l.children|);
      }
    }
  }

  lemma MergedOk(p: Pair)
    requires PairOk(p) && SlotUse(p.left) + SlotUse(p.right) < SlotMax(p.left)
    ensures Ok(Merged(p)) && Level(Merged(p)) == Level(p.left) && Items(Merged(p)) == Items(p.left) + Items(p.right)
    ensures LastKey(Merged(p)) == LastKey(p.right) && SlotUse(Merged(p)) >= SlotUse(p.left) + SlotUse(p.right)
  {
    NonEmpty(p.right);
    LastOf(Items(p.left), Items(p.right));
    if p.left.Inner? {
      RowOk(p);
    }
  }

  /** A pair is made into another that holds the same, with a node of each sound and at least half full. */
  ghost predicate Balanced(p: Pair, q: Pair) {
    && PairOk(q) && Level(q.left) == Level(p.left) && q.left.Leaf? == p.left.Leaf?
    && Items(q.left) + Items(q.right) == Items(p.left) + Items(p.right) && LastKey(q.right) == LastKey(p.right)
    && !IsUnderflow(q.left) && !IsUnderflow(q.right)
  }

  /** A row cut in two makes a balanced pair. */
  lemma CutBalances(p: Pair, q: Pair, m: nat)
    requires PairOk(p) && p.left.Inner? && q.left.Inner? && q.right.Inner?
    requires q.left.level == q.right.level == p.left.level
    requires var keys, children := p.left.keys + [p.key] + p.right.keys, p.left.children + p.right.children;
             && m < |keys| && q.left.keys == keys[..m] && q.key == keys[m] && q.right.keys == keys[m + 1..]
             && q.left.children == children[..m + 1] && q.right.children == children[m + 1..]
    requires INNER_SLOTS / 2 <= |q.left.keys| <= INNER_SLOTS && INNER_SLOTS / 2 <= |q.right.keys| <= INNER_SLOTS
    ensures Balanced(p, q)
  {
    RowOk(p);
    CutOk(p.left.level, p.left.keys + [p.key] + p.right.keys, p.left.children + p.right.children, m);
    SameLast(p, q);
  }

  lemma CutLeaves(p: Pair, q: Pair, m: nat)
    requires PairOk(p) && p.left.Leaf? && q.left.Leaf? && q.right.Leaf? && m <= |p.left.items| + |p.right.items|
    requires q.left.items == (p.left.items + p.right.items)[..m] && q.right.items == (p.left.items + p.right.items)[m..]
    requires LEAF_SLOTS / 2 <= |q.left.items| <= LEAF_SLOTS && LEAF_SLOTS / 2 <= |q.right.items| <= LEAF_SLOTS
    requires q.key == q.left.items[|q.left.items| - 1].key
    ensures Balanced(p, q)
  {
    var s := p.left.items + p.right.items;
    assert s == s[..m] + s[m..];
    SortedParts(s[..m], s[m..]);
    SameLast(p, q);
  }

  lemma ShiftedLeftOk(p: Pair)
    requires PairOk(p) && SlotUse(p.left) + 1 == SlotMax(p.left) / 2 && !IsFew(p.right)
    ensures Balanced(p, ShiftedLeft(p))
  {
    var q := ShiftedLeft(p);
    var num := (SlotUse(p.right) - SlotUse(p.left)) / 2;
    if p.left.Leaf? {
      CutRow(p.left.items, p.right.items, |p.left.items| + num);
      CutLeaves(p, q, |p.left.items| + num);
    } else {
      ShiftedLeftInner(p, num);
    }
  }

  lemma ShiftedLeftInner(p: Pair, num: nat)
    requires PairOk(p) && p.left.Inner? && |p.left.keys| + 1 == INNER_SLOTS / 2 && |p.right.keys| > INNER_SLOTS / 2
    requires num == (|p.right.keys| - |p.left.keys|) / 2
    ensures Balanced(p, ShiftedLeft(p))
  {
    CutRowRight(p.left.keys, p.key, p.right.keys, num);
    CutRow(p.left.children, p.right.children, |p.left.children| + num);
    CutBalances(p, ShiftedLeft(p), |p.left.keys| + num);
  }

  lemma ShiftedRightOk(p: Pair)
    requires PairOk(p) && SlotUse(p.right) + 1 == SlotMax(p.right) / 2 && !IsFew(p.left)
    ensures Balanced(p, ShiftedRight(p))
  {
    var q := ShiftedRight(p);
    var m := SlotUse(p.left) - (SlotUse(p.left) - SlotUse(p.right)) / 2;
    if p.left.Leaf? {
      CutRow(p.left.items, p.right.items, m);
      CutLeaves(p, q, m);
    } else {
      CutRowLeft(p.left.keys, p.key, p.right.keys, m);
      CutRow(p.left.children, p.right.children, m + 1);
      CutBalances(p, q, m);
    }
  }

  lemma CutRow<T>(a: seq<T>, b: seq<T>, m: nat)
    requires m <= |a| + |b|
    ensures m <= |a| ==> (a + b)[..m] == a[..m] && (a + b)[m..] == a[m..] + b
    ensures m >= |a| ==> (a + b)[..m] == a + b[..m - |a|] && (a + b)[m..] == b[m - |a|..]
  {
  }

  lemma SameLast(p: Pair, q: Pair)
    requires Items(q.left) + Items(q.right) == Items(p.left) + Items(p.right) && Ok(q.right) && Ok(p.right)
    ensures LastKey(q.right) == LastKey(p.right)
  {
    NonEmpty(q.right);
    NonEmpty(p.right);
    LastOf(Items(q.left), Items(q.right));
    LastOf(Items(p.left), Items(p.right));
  }

  // ---- A parent with one child too thin ----

  function PairAt(n: Node, i: nat): Pair
    requires n.Inner? && i < |n.keys| && |n.children| == |n.keys| + 1
  {
    Pair(n.children[i], n.keys[i], n.children[i + 1])
  }

  /** Children `i` and `i + 1` become one.  Above leaves the separator is read again from the leaf. */
  function MergeAt(n: Node, i: nat): Node
    requires n.Inner? && i < |n.keys| && |n.children| == |n.keys| + 1 && n.children[i].Leaf? == n.children[i + 1].Leaf?
  {
    var m := Merged(PairAt(n, i));
    var keys := RemoveAt(n.keys, i);
    Inner(n.level, if n.level == 1 && i < |keys| then keys[i := LastKey(m)] else keys,
          n.children[..i] + [m] + n.children[i + 2..])
  }

  function PutPair(n: Node, i: nat, q: Pair): Node
    requires n.Inner? && i < |n.keys| && |n.children| == |n.keys| + 1
  {
    Inner(n.level, n.keys[i := q.key], n.children[i := q.left][i + 1 := q.right])
  }

  /** One leaf or inner node fewer. */
  function MergeLinks(n: Node, i: nat, links: Links): Links
    requires n.Inner? && i + 1 < |n.children|
  {
    if n.children[i].Leaf? && n.children[i + 1].Leaf? then MergeLeaves(links, n.children[i].id, n.children[i + 1].id)
    else FewerInner(links)
  }

  /** All is sound but for child `slot`, which is one short of half full. */
  ghost predicate Thin(n: Node, slot: nat) {
    && n.Inner? && n.level > 0 && 1 <= |n.keys| <= INNER_SLOTS && KeysOk(n.keys, n.children) && Sorted(Items(n))
    && slot < |n.children| && SlotUse(n.children[slot]) + 1 == SlotMax(n.children[slot]) / 2
    && (forall i :: 0 <= i < |n.children| ==>
          ThinChild(n.children[i], n.level) && (i != slot ==> !IsUnderflow(n.children[i])))
  }

  ghost predicate ThinChild(c: Node, level: nat) {
    Ok(c) && Level(c) + 1 == level && c.Leaf? == (level == 1)
  }

  ghost predicate Neighbours(n: Node, slot: nat, left: Option<Node>, right: Option<Node>) {
    && n.Inner? && slot < |n.children| == |n.keys| + 1
    && (slot > 0 ==> left == Some(n.children[slot - 1]))
    && (slot < |n.keys| ==> right == Some(n.children[slot + 1]))
  }

  /** A node, and the list of leaves and the counts of nodes with it. */
  datatype Fixed = Fixed(node: Node, links: Links)

  function Merge(n: Node, i: nat, links: Links): Fixed
    requires n.Inner? && i < |n.keys| && |n.children| == |n.keys| + 1
    requires n.children[i].Leaf? == n.children[i + 1].Leaf?
  {
    Fixed(MergeAt(n, i), MergeLinks(n, i, links))
  }

  function Shift(n: Node, i: nat, q: Pair, links: Links): Fixed
    requires n.Inner? && i < |n.keys| && |n.children| == |n.keys| + 1
  {
    Fixed(PutPair(n, i, q), links)
  }

  /** The six cases.  A neighbour that is not under this parent is only asked how full it is. */
  function Rebalance(n: Node, slot: nat, left: Option<Node>, right: Option<Node>, links: Links): Fixed
    requires Thin(n, slot) && Neighbours(n, slot, left, right)
  {
    if (left.None? || IsFew(left.value)) && (right.None? || IsFew(right.value)) then
      if slot > 0 then Merge(n, slot - 1, links) else Merge(n, slot, links)
    else if left.Some? && IsFew(left.value) && right.Some? && !IsFew(right.value) then
      if slot < |n.keys| then Shift(n, slot, ShiftedLeft(PairAt(n, slot)), links) else Merge(n, slot - 1, links)
    else if left.Some? && !IsFew(left.value) && right.Some? && IsFew(right.value) then
      if slot > 0 then Shift(n, slot - 1, ShiftedRight(PairAt(n, slot - 1)), links) else Merge(n, slot, links)
    else if 0 < slot < |n.keys| then
      if SlotUse(left.value) <= SlotUse(right.value)
      then Shift(n, slot, ShiftedLeft(PairAt(n, slot)), links)
      else Shift(n, slot - 1, ShiftedRight(PairAt(n, slot - 1)), links)
    else if slot > 0 then Shift(n, slot - 1, ShiftedRight(PairAt(n, slot - 1)), links)
    else Shift(n, slot, ShiftedLeft(PairAt(n, slot)), links)
  }

  lemma PairItems(children: seq<Node>, i: nat)
    requires i + 1 < |children|
    ensures Concat(children)
            == Concat(children[..i]) + (Items(children[i]) + Items(children[i + 1])) + Concat(children[i + 2..])
  {
    ConcatAt(children, i);
    var rest := children[i + 1..];
    assert rest[0] == children[i + 1] && rest[1..] == children[i + 2..];
    JoinFour(Concat(children[..i]), Items(children[i]), Items(rest[0]), Concat(rest[1..]));
  }

  lemma MiddleSorted(a: seq<Item>, b: seq<Item>, c: seq<Item>)
    requires Sorted(a + b + c)
    ensures Sorted(b)
  {
    SortedParts(a + b, c);
    SortedParts(a, b);
  }

  lemma PairAtOk(n: Node, slot: nat, i: nat)
    requires Thin(n, slot) && i < |n.keys|
    ensures PairOk(PairAt(n, i))
  {
    PairItems(n.children, i);
    MiddleSorted(Concat(n.children[..i]), Items(n.children[i]) + Items(n.children[i + 1]), Concat(n.children[i + 2..]));
    assert ThinChild(n.children[i], n.level) && ThinChild(n.children[i + 1], n.level);
  }

  /** The node is sound again, holds what it held, and has lost at most one key. */
  ghost predicate Mended(n: Node, n': Node) {
    n.Inner? && n'.Inner? && Sound(n') && n'.level == n.level && Items(n') == Items(n) && |n.keys| - 1 <= |n'.keys|
  }

  lemma PutPairItems(n: Node, i: nat, q: Pair)
    requires n.Inner? && i < |n.keys| && |n.children| == |n.keys| + 1
    requires Items(q.left) + Items(q.right) == Items(n.children[i]) + Items(n.children[i + 1])
    ensures Items(PutPair(n, i, q)) == Items(n)
  {
    var children := PutPair(n, i, q).children;
    PairItems(n.children, i);
    PairItems(children, i);
    assert children[..i] == n.children[..i] && children[i + 2..] == n.children[i + 2..];
  }

  lemma PutPairChildren(n: Node, slot: nat, i: nat, q: Pair)
    requires Thin(n, slot) && i < |n.keys| && (slot == i || slot == i + 1) && Balanced(PairAt(n, i), q)
    ensures ChildrenOk(PutPair(n, i, q).children, n.level)
  {
    var children := PutPair(n, i, q).children;
    assert ThinChild(n.children[i], n.level);
    forall j | 0 <= j < |children| ensures ChildOk(children[j], n.level) {
      if j != i && j != i + 1 {
        ThinAt(n, slot, j);
      }
    }
  }

  lemma PutPairOk(n: Node, slot: nat, i: nat, q: Pair)
    requires Thin(n, slot) && i < |n.keys| && (slot == i || slot == i + 1) && Balanced(PairAt(n, i), q)
    ensures Mended(n, PutPair(n, i, q))
  {
    PutPairItems(n, i, q);
    PutPairKeys(n, i, q);
    PutPairChildren(n, slot, i, q);
  }

  lemma PutPairKeys(n: Node, i: nat, q: Pair)
    requires n.Inner? && i < |n.keys| && KeysOk(n.keys, n.children)
    requires q.key == LastKey(q.left) && LastKey(q.right) == LastKey(n.children[i + 1])
    ensures KeysOk(PutPair(n, i, q).keys, PutPair(n, i, q).children)
  {
  }

  lemma MergeAtOk(n: Node, slot: nat, i: nat)
    requires Thin(n, slot) && i < |n.keys| && (slot == i || slot == i + 1)
    requires IsFew(n.children[if slot == i then i + 1 else i])
    ensures n.children[i].Leaf? == n.children[i + 1].Leaf?
    ensures Mended(n, MergeAt(n, i))
  {
    assert ThinChild(n.children[i], n.level) && ThinChild(n.children[i + 1], n.level);
    PairAtOk(n, slot, i);
    MergedOk(PairAt(n, i));
    MergeItems(n, i);
    MergeKeys(n, i);
    MergeChildren(n, slot, i);
  }

  lemma ThinAt(n: Node, slot: nat, j: nat)
    requires Thin(n, slot) && j < |n.children| && j != slot
    ensures ChildOk(n.children[j], n.level)
  {
    assert ThinChild(n.children[j], n.level);
  }

  lemma ThinSides(n: Node, slot: nat, i: nat)
    requires Thin(n, slot) && i < |n.keys| && (slot == i || slot == i + 1)
    ensures ChildrenOk(n.children[..i], n.level) && ChildrenOk(n.children[i + 2..], n.level)
  {
    forall j | 0 <= j < i ensures ChildOk(n.children[..i][j], n.level) {
      ThinAt(n, slot, j);
    }
    var right := n.children[i + 2..];
    forall j | 0 <= j < |right| ensures ChildOk(right[j], n.level) {
      ThinAt(n, slot, i + 2 + j);
    }
  }

  lemma JoinChildren(a: seq<Node>, m: Node, c: seq<Node>, level: nat)
    requires ChildrenOk(a, level) && ChildOk(m, level) && ChildrenOk(c, level)
    ensures ChildrenOk(a + [m] + c, level)
  {
    var all := a + [m] + c;
    forall j | 0 <= j < |all| ensures ChildOk(all[j], level) {
      assert j < |a| ==> all[j] == a[j];
      assert j > |a| ==> all[j] == c[j - |a| - 1];
    }
  }

  lemma MergeChildren(n: Node, slot: nat, i: nat)
    requires Thin(n, slot) && i < |n.keys| && (slot == i || slot == i + 1)
    requires n.children[i].Leaf? == n.children[i + 1].Leaf?
    requires ChildOk(Merged(PairAt(n, i)), n.level)
    ensures ChildrenOk(MergeAt(n, i).children, n.level)
  {
    ThinSides(n, slot, i);
    JoinChildren(n.children[..i], Merged(PairAt(n, i)), n.children[i + 2..], n.level);
  }

  lemma MergeItems(n: Node, i: nat)
    requires n.Inner? && i < |n.keys| && |n.children| == |n.keys| + 1 && n.children[i].Leaf? == n.children[i + 1].Leaf?
    requires Items(Merged(PairAt(n, i))) == Items(n.children[i]) + Items(n.children[i + 1])
    ensures Items(MergeAt(n, i)) == Items(n)
  {
    var n' := MergeAt(n, i);
    PairItems(n.children, i);
    ConcatAt(n'.children, i);
    assert n'.children[..i] == n.children[..i] && n'.children[i + 1..] == n.children[i + 2..];
  }

  lemma MergeKeys(n: Node, i: nat)
    requires n.Inner? && i < |n.keys| && KeysOk(n.keys, n.children) && n.children[i].Leaf? == n.children[i + 1].Leaf?
    requires LastKey(Merged(PairAt(n, i))) == LastKey(n.children[i + 1])
    ensures KeysOk(MergeAt(n, i).keys, MergeAt(n, i).children)
  {
    var n' := MergeAt(n, i);
    forall j | 0 <= j < |n'.keys| ensures n'.keys[j] == LastKey(n'.children[j]) {
      RemoveIndex(n.keys, i, j);
      assert j < i ==> n'.children[j] == n.children[j];
      assert j > i ==> n'.children[j] == n.children[j + 1];
    }
  }

  lemma MendRight(n: Node, slot: nat)
    requires Thin(n, slot) && slot < |n.keys|
    ensures n.children[slot].Leaf? == n.children[slot + 1].Leaf?
    ensures IsFew(n.children[slot + 1]) ==> Mended(n, MergeAt(n, slot))
    ensures !IsFew(n.children[slot + 1]) ==> Mended(n, PutPair(n, slot, ShiftedLeft(PairAt(n, slot))))
  {
    PairAtOk(n, slot, slot);
    if IsFew(n.children[slot + 1]) {
      MergeAtOk(n, slot, slot);
    } else {
      ShiftedLeftOk(PairAt(n, slot));
      PutPairOk(n, slot, slot, ShiftedLeft(PairAt(n, slot)));
    }
  }

  lemma MendLeft(n: Node, i: nat)
    requires Thin(n, i + 1)
    ensures n.children[i].Leaf? == n.children[i + 1].Leaf?
    ensures IsFew(n.children[i]) ==> Mended(n, MergeAt(n, i))
    ensures !IsFew(n.children[i]) ==> Mended(n, PutPair(n, i, ShiftedRight(PairAt(n, i))))
  {
    PairAtOk(n, i + 1, i);
    if IsFew(n.children[i]) {
      MergeAtOk(n, i + 1, i);
    } else {
      ShiftedRightOk(PairAt(n, i));
      PutPairOk(n, i + 1, i, ShiftedRight(PairAt(n, i)));
    }
  }

  lemma RebalanceFirst(n: Node, left: Option<Node>, right: Option<Node>, links: Links)
    requires Thin(n, 0) && Neighbours(n, 0, left, right)
    ensures Mended(n, Rebalance(n, 0, left, right, links).node)
  {
    MendRight(n, 0);
  }

  lemma RebalanceLater(n: Node, slot: nat, left: Option<Node>, right: Option<Node>, links: Links)
    requires Thin(n, slot) && Neighbours(n, slot, left, right) && slot > 0
    ensures Mended(n, Rebalance(n, slot, left, right, links).node)
  {
    MendLeft(n, slot - 1);
    if slot < |n.keys| {
      MendRight(n, slot);
    }
  }

  /** Whatever the fill of neighbours that are not under this parent, the node is sound again. */
  lemma RebalanceOk(n: Node, slot: nat, left: Option<Node>, right: Option<Node>, links: Links)
    requires Thin(n, slot) && Neighbours(n, slot, left, right)
    ensures Mended(n, Rebalance(n, slot, left, right, links).node)
  {
    if slot == 0 {
      RebalanceFirst(n, left, right, links);
    } else {
      RebalanceLater(n, slot, left, right, links);
    }
  }

  // ---- The leaves of two neighbours ----

  function PairCensus(p: Pair): Census {
    Plus(CensusOf(p.left), CensusOf(p.right))
  }

  lemma CensusOfPair(children: seq<Node>, i: nat)
    requires i + 1 < |children|
    ensures var pair := Plus(CensusOf(children[i]), CensusOf(children[i + 1]));
            CensusAll(children) == Plus(Plus(CensusAll(children[..i]), pair), CensusAll(children[i + 2..]))
  {
    PairInside(children, i);
    CensusFour(children[..i], children[i], children[i + 1], children[i + 2..]);
  }

  /** Children that change places between two nodes stay in order. */
  lemma SameCensus(p: Pair, q: Pair)
    requires p.left.Inner? && p.right.Inner? && q.left.Inner? && q.right.Inner?
    requires q.left.children + q.right.children == p.left.children + p.right.children
    ensures PairCensus(q) == PairCensus(p)
  {
    CensusSplit(p.left.children, p.right.children);
    CensusSplit(q.left.children, q.right.children);
  }

  lemma ShiftedLeftCensus(p: Pair)
    requires PairOk(p) && SlotUse(p.left) + 2 <= SlotUse(p.right)
    ensures PairCensus(ShiftedLeft(p)) == PairCensus(p)
  {
    if p.left.Inner? {
      var num := (SlotUse(p.right) - SlotUse(p.left)) / 2;
      MoveFirst(p.left.children, p.right.children, num);
      SameCensus(p, ShiftedLeft(p));
    }
  }

  lemma MoveFirst<T>(a: seq<T>, b: seq<T>, num: nat)
    requires num <= |b|
    ensures a + b[..num] + b[num..] == a + b
  {
    assert b[..num] + b[num..] == b;
  }

  lemma ShiftedRightCensus(p: Pair)
    requires PairOk(p) && SlotUse(p.right) + 2 <= SlotUse(p.left)
    ensures PairCensus(ShiftedRight(p)) == PairCensus(p)
  {
    if p.left.Inner? {
      var stay := SlotUse(p.left) - (SlotUse(p.left) - SlotUse(p.right)) / 2;
      MoveLast(p.left.children, p.right.children, stay + 1);
      SameCensus(p, ShiftedRight(p));
    }
  }

  lemma MoveLast<T>(a: seq<T>, b: seq<T>, num: nat)
    requires num <= |a|
    ensures a[..num] + (a[num..] + b) == a + b
  {
    assert a[..num] + a[num..] == a;
  }

  lemma MergedCensus(p: Pair)
    requires p.left.Leaf? == p.right.Leaf?
    ensures p.left.Leaf? ==>
              PairCensus(p).ids == [p.left.id, p.right.id] && CensusOf(Merged(p)) == Census([p.left.id], 0)
    ensures p.left.Inner? ==> PairCensus(p) == Above(CensusOf(Merged(p)))
  {
    if p.left.Inner? {
      CensusSplit(p.left.children, p.right.children);
    }
  }

  /** Shifts leave the list as it is. */
  lemma ShiftRelinks(n: Node, i: nat, q: Pair, links: Links, a: seq<Id>, c: seq<Id>)
    requires n.Inner? && i < |n.keys| && |n.children| == |n.keys| + 1 && PairCensus(q) == PairCensus(PairAt(n, i))
    requires Linked(links, a + CensusOf(n).ids + c)
    ensures Relinked(a, CensusOf(n), links, CensusOf(Shift(n, i, q, links).node), links, c)
  {
    var children := PutPair(n, i, q).children;
    CensusOfPair(n.children, i);
    CensusOfPair(children, i);
    assert children[..i] == n.children[..i] && children[i + 2..] == n.children[i + 2..];
  }

  /** A merge takes the right one of two leaves out of the list, or one inner node away. */
  lemma MergeRelinks(n: Node, i: nat, links: Links, a: seq<Id>, c: seq<Id>)
    requires n.Inner? && i < |n.keys| && |n.children| == |n.keys| + 1
    requires n.children[i].Leaf? == n.children[i + 1].Leaf? && Linked(links, a + CensusOf(n).ids + c)
    ensures var f := Merge(n, i, links); Relinked(a, CensusOf(n), links, CensusOf(f.node), f.links, c)
  {
    var p, f := PairAt(n, i), Merge(n, i, links);
    var before, after := CensusAll(n.children[..i]), CensusAll(n.children[i + 2..]);
    MergeCensus(n, i);
    MergedCensus(p);
    CensusOfPair(n.children, i);
    Regroup(a, before.ids, PairCensus(p).ids, after.ids, c);
    Regroup(a, before.ids, CensusOf(Merged(p)).ids, after.ids, c);
    if p.left.Leaf? {
      MergeLeavesLinked(links, a + before.ids, p.left.id, p.right.id, after.ids + c);
    } else {
      InnerApart(links, f.links, a + CensusOf(n).ids + c);
    }
  }

  lemma MergeCensus(n: Node, i: nat)
    requires n.Inner? && i < |n.keys| && |n.children| == |n.keys| + 1
    requires n.children[i].Leaf? == n.children[i + 1].Leaf?
    ensures var before, after := CensusAll(n.children[..i]), CensusAll(n.children[i + 2..]);
            CensusOf(MergeAt(n, i)) == Above(Plus(Plus(before, CensusOf(Merged(PairAt(n, i)))), after))
  {
    var children := MergeAt(n, i).children;
    CensusAt(children, i);
    assert children[..i] == n.children[..i] && children[i + 1..] == n.children[i + 2..];
  }

  /** The node has been put for `n`, and the list runs through its leaves. */
  ghost predicate Refit(n: Node, links: Links, f: Fixed, a: seq<Id>, c: seq<Id>) {
    Relinked(a, CensusOf(n), links, CensusOf(f.node), f.links, c)
  }

  lemma RelinkRight(n: Node, slot: nat, links: Links, a: seq<Id>, c: seq<Id>)
    requires Thin(n, slot) && slot < |n.keys| && Linked(links, a + CensusOf(n).ids + c)
    ensures n.children[slot].Leaf? == n.children[slot + 1].Leaf?
    ensures Refit(n, links, Merge(n, slot, links), a, c)
    ensures !IsFew(n.children[slot + 1]) ==>
              Refit(n, links, Shift(n, slot, ShiftedLeft(PairAt(n, slot)), links), a, c)
  {
    PairAtOk(n, slot, slot);
    MergeRelinks(n, slot, links, a, c);
    if !IsFew(n.children[slot + 1]) {
      ShiftedLeftCensus(PairAt(n, slot));
      ShiftRelinks(n, slot, ShiftedLeft(PairAt(n, slot)), links, a, c);
    }
  }

  lemma RelinkLeft(n: Node, i: nat, links: Links, a: seq<Id>, c: seq<Id>)
    requires Thin(n, i + 1) && Linked(links, a + CensusOf(n).ids + c)
    ensures n.children[i].Leaf? == n.children[i + 1].Leaf?
    ensures Refit(n, links, Merge(n, i, links), a, c)
    ensures !IsFew(n.children[i]) ==>
              Refit(n, links, Shift(n, i, ShiftedRight(PairAt(n, i)), links), a, c)
  {
    PairAtOk(n, i + 1, i);
    MergeRelinks(n, i, links, a, c);
    if !IsFew(n.children[i]) {
      ShiftedRightCensus(PairAt(n, i));
      ShiftRelinks(n, i, ShiftedRight(PairAt(n, i)), links, a, c);
    }
  }

  lemma RelinkBetween(n: Node, slot: nat, left: Option<Node>, right: Option<Node>, links: Links,
                      a: seq<Id>, c: seq<Id>)
    requires Thin(n, slot) && Neighbours(n, slot, left, right) && Linked(links, a + CensusOf(n).ids + c)
    requires 0 < slot < |n.keys|
    ensures Refit(n, links, Rebalance(n, slot, left, right, links), a, c)
  {
    RelinkLeft(n, slot - 1, links, a, c);
    RelinkRight(n, slot, links, a, c);
  }

  /** In all six cases the list runs through the leaves there are. */
  lemma RebalanceRelinks(n: Node, slot: nat, left: Option<Node>, right: Option<Node>, links: Links,
                         a: seq<Id>, c: seq<Id>)
    requires Thin(n, slot) && Neighbours(n, slot, left, right) && Linked(links, a + CensusOf(n).ids + c)
    ensures Refit(n, links, Rebalance(n, slot, left, right, links), a, c)
  {
    if slot == 0 {
      RelinkRight(n, slot, links, a, c);
    } else if slot == |n.keys| {
      RelinkLeft(n, slot - 1, links, a, c);
    } else {
      RelinkBetween(n, slot, left, right, links, a, c);
    }
  }

  // ---- The descent ----

  /** A node next to `n` at its level, or none at the edge of the tree. */
  ghost predicate Beside(n: Node, side: Option<Node>) {
    side.Some? ==> Ok(side.value) && Level(side.value) == Level(n) && side.value.Leaf? == n.Leaf?
  }

  /** The node to the left of child `slot`.  For the first child it is taken one short of the end of the
      node on the left. */
  function LeftOf(n: Node, slot: nat, left: Option<Node>): Option<Node>
    requires Ok(n) && n.Inner? && slot < |n.children| && Beside(n, left)
  {
    if slot > 0 then Some(n.children[slot - 1])
    else if left.None? then None
    else Some(left.value.children[|left.value.keys| - 1])
  }

  function RightOf(n: Node, slot: nat, right: Option<Node>): Option<Node>
    requires Ok(n) && n.Inner? && slot < |n.children| && Beside(n, right)
  {
    if slot < |n.keys| then Some(n.children[slot + 1])
    else if right.None? then None
    else Some(right.value.children[0])
  }

  lemma BesideLeft(n: Node, slot: nat, left: Option<Node>)
    requires Ok(n) && n.Inner? && slot < |n.children| && Beside(n, left)
    ensures Beside(n.children[slot], LeftOf(n, slot, left))
  {
    ChildAt(n, slot);
    if slot > 0 {
      ChildAt(n, slot - 1);
    } else if left.Some? {
      ChildAt(left.value, |left.value.keys| - 1);
    }
  }

  lemma BesideRight(n: Node, slot: nat, right: Option<Node>)
    requires Ok(n) && n.Inner? && slot < |n.children| && Beside(n, right)
    ensures Beside(n.children[slot], RightOf(n, slot, right))
  {
    ChildAt(n, slot);
    if slot < |n.keys| {
      ChildAt(n, slot + 1);
    } else if right.Some? {
      ChildAt(right.value, 0);
    }
  }

  lemma BesideChild(n: Node, slot: nat, left: Option<Node>, right: Option<Node>)
    requires Ok(n) && n.Inner? && slot < |n.children| && Beside(n, left) && Beside(n, right)
    ensures Ok(n.children[slot])
    ensures Beside(n.children[slot], LeftOf(n, slot, left)) && Beside(n.children[slot], RightOf(n, slot, right))
  {
    ChildAt(n, slot);
    BesideLeft(n, slot, left);
    BesideRight(n, slot, right);
  }

  /** The node with the thinner child in, and its separator set again if the child's maximum has changed. */
  function WithChild(n: Node, slot: nat, r: Out): Node
    requires n.Inner? && slot < |n.children| == |n.keys| + 1 && r.Gone?
  {
    Inner(n.level, if r.lastKey.Some? && slot < |n.keys| then n.keys[slot := r.lastKey.value] else n.keys,
          n.children[slot := r.node])
  }

  /** What the removal from a subtree is to do. */
  ghost predicate GoneOk(n: Node, key: Key, r: Out) {
    && (r.Missing? <==> !HasKey(Items(n), key))
    && (r.Gone? ==>
          && Erased(Items(n), Items(r.node), key) && Sound(r.node)
          && Level(r.node) == Level(n) && r.node.Leaf? == n.Leaf? && SlotUse(n) - 1 <= SlotUse(r.node)
          && (Items(r.node) != [] ==> LastKey(r.node) == if r.lastKey.Some? then r.lastKey.value else LastKey(n)))
  }

  lemma ErasedHere(n: Node, slot: nat, r: Out, key: Key)
    requires Ok(n) && n.Inner? && slot == Lower(n.keys, key) && slot < |n.children|
    requires r.Gone? && Erased(Items(n.children[slot]), Items(r.node), key)
    ensures Erased(Items(n), Items(WithChild(n, slot, r)), key) && Sorted(Items(WithChild(n, slot, r)))
  {
    var children := n.children[slot := r.node];
    SlotDivides(n, key);
    ErasedWithin(Concat(n.children[..slot]), Items(n.children[slot]), Items(r.node), Concat(n.children[slot + 1..]),
                 key);
    ConcatAt(children, slot);
    assert children[..slot] == n.children[..slot] && children[slot + 1..] == n.children[slot + 1..];
    ErasedSorted(Items(n), Concat(children), key);
  }

  lemma ChildThin(n: Node, slot: nat, r: Out, key: Key)
    requires Ok(n) && n.Inner? && slot < |n.children| && r.Gone? && GoneOk(n.children[slot], key, r)
    ensures ThinChild(r.node, n.level) && SlotMax(r.node) / 2 <= SlotUse(r.node) + 1
    ensures slot < |n.keys| ==> LastKey(r.node) == if r.lastKey.Some? then r.lastKey.value else n.keys[slot]
  {
    ChildAt(n, slot);
    SoundIsOk(r.node);
    NonEmpty(r.node);
  }

  /** The child is one short of half full, and all else is sound. */
  lemma ThinAfter(n: Node, slot: nat, r: Out, key: Key)
    requires Ok(n) && n.Inner? && slot == Lower(n.keys, key) && slot < |n.children|
    requires r.Gone? && GoneOk(n.children[slot], key, r)
    ensures ThinChild(r.node, n.level) && Erased(Items(n), Items(WithChild(n, slot, r)), key)
    ensures IsUnderflow(r.node) ==> Thin(WithChild(n, slot, r), slot)
    ensures !IsUnderflow(r.node) ==> Sound(WithChild(n, slot, r))
  {
    var n' := WithChild(n, slot, r);
    ErasedHere(n, slot, r, key);
    ChildThin(n, slot, r, key);
    forall i | 0 <= i < |n'.children| && i != slot
      ensures ThinChild(n'.children[i], n.level) && !IsUnderflow(n'.children[i]) && ChildOk(n'.children[i], n.level)
    {
      ChildAt(n, i);
    }
  }

  /** Goes on in a node when the removal from the child at `slot` is done. */
  function Resume(n: Node, slot: nat, r: Out, left: Option<Node>, right: Option<Node>): Out
    requires n.Inner? && slot < |n.children| == |n.keys| + 1 && r.Gone?
    requires IsUnderflow(r.node) ==> Thin(WithChild(n, slot, r), slot) && Neighbours(n, slot, left, right)
  {
    var n' := WithChild(n, slot, r);
    var f := if IsUnderflow(r.node) then Rebalance(n', slot, left, right, r.links) else Fixed(n', r.links);
    Gone(f.node, if slot == |n.keys| then r.lastKey else None, f.links)
  }

  lemma ResumeOk(n: Node, slot: nat, r: Out, key: Key, left: Option<Node>, right: Option<Node>)
    requires Ok(n) && n.Inner? && slot == Lower(n.keys, key) && slot < |n.children|
    requires r.Gone? && GoneOk(n.children[slot], key, r)
    requires Neighbours(n, slot, left, right) && HasKey(Items(n), key)
    ensures IsUnderflow(r.node) ==> Thin(WithChild(n, slot, r), slot)
    ensures GoneOk(n, key, Resume(n, slot, r, left, right))
  {
    ThinAfter(n, slot, r, key);
    LastAfter(n, slot, r);
    if IsUnderflow(r.node) {
      NeighboursStay(n, slot, r, left, right);
      RebalanceOk(WithChild(n, slot, r), slot, left, right, r.links);
      SameContents(WithChild(n, slot, r), Rebalance(WithChild(n, slot, r), slot, left, right, r.links).node);
    }
  }

  lemma ResumeRelinks(n: Node, slot: nat, r: Out, key: Key, left: Option<Node>, right: Option<Node>, links: Links,
                      a: seq<Id>, c: seq<Id>)
    requires Ok(n) && n.Inner? && slot == Lower(n.keys, key) && slot < |n.children|
    requires r.Gone? && GoneOk(n.children[slot], key, r) && Neighbours(n, slot, left, right)
    requires var before, after := CensusAll(n.children[..slot]).ids, CensusAll(n.children[slot + 1..]).ids;
             Relinked(a + before, CensusOf(n.children[slot]), links, CensusOf(r.node), r.links, after + c)
    ensures IsUnderflow(r.node) ==> Thin(WithChild(n, slot, r), slot)
    ensures var q := Resume(n, slot, r, left, right);
            Relinked(a, CensusOf(n), links, CensusOf(q.node), q.links, c)
  {
    var n' := WithChild(n, slot, r);
    ThinAfter(n, slot, r, key);
    Outward(n, slot, CensusOf(r.node), links, r.links, a, c);
    ReplaceCensus(n.children, slot, r.node);
    assert Relinked(a, CensusOf(n), links, CensusOf(n'), r.links, c);
    if IsUnderflow(r.node) {
      NeighboursStay(n, slot, r, left, right);
      RebalanceRelinks(n', slot, left, right, r.links, a, c);
    }
  }

  lemma NeighboursStay(n: Node, slot: nat, r: Out, left: Option<Node>, right: Option<Node>)
    requires Neighbours(n, slot, left, right) && r.Gone?
    ensures Neighbours(WithChild(n, slot, r), slot, left, right)
  {
  }

  lemma SameContents(n: Node, n': Node)
    requires Mended(n, n')
    ensures LastKey(n') == LastKey(n) && Level(n') == Level(n) && n'.Inner? && Sound(n')
    ensures SlotUse(n) - 1 <= SlotUse(n')
  {
  }

  function EraseDescend(n: Node, key: Key, left: Option<Node>, right: Option<Node>, links: Links): (r: Out)
    requires Ok(n) && Beside(n, left) && Beside(n, right)
    ensures GoneOk(n, key, r)
    decreases n
  {
    match n
    case Leaf(id, items) =>
      LeafGone(id, items, key, links);
      EraseLeaf(id, items, key, links)
    case Inner(_, keys, children) =>
      var slot := Lower(keys, key);
      BesideChild(n, slot, left, right);
      KeyInChild(n, key);
      var myLeft, myRight := LeftOf(n, slot, left), RightOf(n, slot, right);
      var r := EraseDescend(children[slot], key, myLeft, myRight, links);
      if r.Missing? then Missing
      else
        ResumeOk(n, slot, r, key, myLeft, myRight);
        Resume(n, slot, r, myLeft, myRight)
  }

  /** The leaves that are left below the node stay in the list between the same others. */
  lemma {:induction false} EraseRelinks(n: Node, key: Key, left: Option<Node>, right: Option<Node>, links: Links,
                                        a: seq<Id>, c: seq<Id>)
    requires Ok(n) && Beside(n, left) && Beside(n, right) && Linked(links, a + CensusOf(n).ids + c)
    ensures var r := EraseDescend(n, key, left, right, links);
            r.Gone? ==> Relinked(a, CensusOf(n), links, CensusOf(r.node), r.links, c)
    decreases n
  {
    if n.Inner? {
      var slot := Lower(n.keys, key);
      BesideChild(n, slot, left, right);
      var myLeft, myRight := LeftOf(n, slot, left), RightOf(n, slot, right);
      var before, after := CensusAll(n.children[..slot]).ids, CensusAll(n.children[slot + 1..]).ids;
      CensusAt(n.children, slot);
      Regroup(a, before, CensusOf(n.children[slot]).ids, after, c);
      EraseRelinks(n.children[slot], key, myLeft, myRight, links, a + before, after + c);
      var r := EraseDescend(n.children[slot], key, myLeft, myRight, links);
      if r.Gone? {
        ResumeRelinks(n, slot, r, key, myLeft, myRight, links, a, c);
      }
    }
  }

  lemma LeafHas(items: seq<Item>, key: Key)
    requires Sorted(items)
    ensures var slot := Lower(ItemKeys(items), key);
            && (forall j :: 0 <= j < slot ==> items[j].key < key)
            && (HasKey(items, key) <==> slot < |items| && items[slot].key == key)
  {
    var keys := ItemKeys(items);
    var slot := Lower(keys, key);
    LowerAt(keys, key);
    forall j | 0 <= j < slot ensures items[j].key < key {
      BelowLower(keys, key, j);
    }
  }

  lemma LeafGone(id: Id, items: seq<Item>, key: Key, links: Links)
    requires Ok(Leaf(id, items))
    ensures GoneOk(Leaf(id, items), key, EraseLeaf(id, items, key, links))
  {
    LeafHas(items, key);
    var slot := Lower(ItemKeys(items), key);
    if slot < |items| && items[slot].key == key {
      LeafLast(items, slot);
      assert ErasedAt(items, RemoveAt(items, slot), key, slot);
      ErasedSorted(items, RemoveAt(items, slot), key);
    }
  }

  lemma LeafLast(items: seq<Item>, slot: nat)
    requires slot < |items|
    ensures |RemoveAt(items, slot)| == |items| - 1
    ensures |items| > 1 && slot < |items| - 1 ==> RemoveAt(items, slot)[|items| - 2] == items[|items| - 1]
  {
  }

  /** The maximum of the node after the removal, from that of its child. */
  lemma LastAfter(n: Node, slot: nat, r: Out)
    requires Ok(n) && n.Inner? && slot < |n.children| && r.Gone? && ThinChild(r.node, n.level)
    requires Items(r.node) != [] ==>
               LastKey(r.node) == if r.lastKey.Some? then r.lastKey.value else LastKey(n.children[slot])
    ensures LastKey(WithChild(n, slot, r))
            == if slot == |n.keys| && r.lastKey.Some? then r.lastKey.value else LastKey(n)
  {
    var i := |n.keys|;
    ChildAt(n, i);
    NonEmpty(n.children[i]);
    NonEmpty(r.node);
    LastOfRow(n.children);
    LastOfRow(n.children[slot := r.node]);
  }

  // ---- The tree ----

  /** Removes one pair.  A root leaf that is empty goes, and a root with one child gives way to it. */
  function EraseOne(t: Tree, key: Key): (Tree, bool)
    requires TreeOk(t)
  {
    if t.root.None? then (t, false)
    else
      match EraseDescend(t.root.value, key, None, None, t.links)
      case Missing => (t, false)
      case Gone(n, _, links) =>
        (Tree(RootOf(n), if t.itemCount > 0 then t.itemCount - 1 else 0, RootLinks(n, links)), true)
  }

  /** A removal keeps every check of `verify`.  It takes out exactly the first pair with the key, or
      changes nothing when there is none. */
  lemma EraseOneOk(t: Tree, key: Key)
    requires TreeOk(t)
    ensures var (t', removed) := EraseOne(t, key);
            && TreeOk(t')
            && (removed <==> HasKey(Contents(t), key))
            && (if removed then Erased(Contents(t), Contents(t'), key) else t' == t)
  {
    if t.root.Some? {
      match EraseDescend(t.root.value, key, None, None, t.links)
      case Missing =>
      case Gone(n, _, links) =>
        ErasedSorted(Items(t.root.value), Items(n), key);
        RootOk(n);
        EraseOneLinks(t, t.root.value, key, n, links);
    }
  }

  lemma EraseOneLinks(t: Tree, root: Node, key: Key, n: Node, links: Links)
    requires Ok(root) && Linked(t.links, CensusOf(root).ids) && t.links.innerNodes == CensusOf(root).inners && Sound(n)
    requires var r := EraseDescend(root, key, None, None, t.links); r.Gone? && r.node == n && r.links == links
    ensures n.Inner? ==> n.children != []
    ensures var census := if RootOf(n).None? then Census([], 0) else CensusOf(RootOf(n).value);
            Linked(RootLinks(n, links), census.ids) && RootLinks(n, links).innerNodes == census.inners
  {
    assert [] + CensusOf(root).ids + [] == CensusOf(root).ids && [] + CensusOf(n).ids + [] == CensusOf(n).ids;
    EraseRelinks(root, key, None, None, t.links, [], []);
    RootLinked(n, links);
  }

  /** The root that a sound node leaves. */
  function RootOf(n: Node): Option<Node>
    requires n.Inner? ==> n.children != []
  {
    if SlotUse(n) > 0 then Some(n) else if n.Leaf? then None else Some(n.children[0])
  }

  function RootLinks(n: Node, links: Links): Links {
    if SlotUse(n) > 0 then links else if n.Leaf? then LastLeafGoes(links, n.id) else FewerInner(links)
  }

  lemma RootLinked(n: Node, links: Links)
    requires Sound(n) && Linked(links, CensusOf(n).ids)
    ensures n.Inner? ==> n.children != []
    ensures var census := if RootOf(n).None? then Census([], 0) else CensusOf(RootOf(n).value);
            Linked(RootLinks(n, links), census.ids)
            && RootLinks(n, links).innerNodes - links.innerNodes == census.inners - CensusOf(n).inners
  {
    if SlotUse(n) == 0 {
      if n.Leaf? {
        LastLeafGoesLinked(links, n.id);
      } else {
        assert n.children == [n.children[0]];
        CensusTwo(n.children[0], n.children[0]);
        InnerApart(links, FewerInner(links), CensusOf(n).ids);
      }
    }
  }

  lemma RootOk(n: Node)
    requires Sound(n)
    ensures n.Inner? ==> n.children != []
    ensures RootOf(n).Some? ==> Ok(RootOf(n).value) && Items(RootOf(n).value) == Items(n)
    ensures RootOf(n).None? ==> Items(n) == []
  {
    if SlotUse(n) > 0 {
      SoundIsOk(n);
    } else if n.Inner? {
      assert ChildOk(n.children[0], n.level);
      ConcatOne(n.children[0]);
      assert n.children == [n.children[0]];
    }
  }

  lemma FirstIsNew(before: seq<Item>, after: seq<Item>, left: seq<Item>, item: Item)
    requires Inserted(before, after, item) && Erased(after, left, item.key)
    ensures left == before
  {
    var i :| InsertedAt(before, after, item, i);
    var k :| ErasedAt(after, left, item.key, k);
    InsertIndex(before, i, item, i);
    if k < i {
      InsertIndex(before, i, item, k);
    }
    assert k == i;
    RemoveInserted(before, i, item);
  }

  /** A pair goes in before all others with its key, so that removing the key next takes it out again. */
  lemma InsertThenErase(t: Tree, item: Item, duplicates: bool)
    requires TreeOk(t) && InsertStart(t, item, duplicates).1
    ensures TreeOk(InsertStart(t, item, duplicates).0)
    ensures EraseOne(InsertStart(t, item, duplicates).0, item.key).1
    ensures Contents(EraseOne(InsertStart(t, item, duplicates).0, item.key).0) == Contents(t)
  {
    InsertStartOk(t, item, duplicates);
    var t' := InsertStart(t, item, duplicates).0;
    EraseOneOk(t', item.key);
    var i :| InsertedAt(Contents(t), Contents(t'), item, i);
    assert Contents(t')[i].key == item.key;
    FirstIsNew(Contents(t), Contents(t'), Contents(EraseOne(t', item.key).0), item);
  }
}
