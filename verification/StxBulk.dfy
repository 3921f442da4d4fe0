/** Bulk loading: a B+ tree built level by level from a sorted sequence. */
module StxBulk {
  import opened Options
  import opened Slots
  import opened StxLinks
  import opened StxTree

  // ---- Fair shares ----

  lemma MulMore(a: int, b: int, c: nat)
    requires a <= b
    ensures c * a <= c * b
  {
  }

  lemma MulSum(a: int, b: int, c: int)
    ensures (a + b) * c == a * c + b * c
  {
  }

  lemma DivIs(n: nat, d: nat)
    requires d > 0
    ensures n == d * (n / d) + n % d && 0 <= n % d < d
  {
  }

  /** Rounded up: enough parts for all, and no part too many. */
  lemma PartsNeeded(n: nat, max: nat, parts: nat)
    requires max >= 1 && parts == (n + max - 1) / max
    ensures n <= max * parts && (n > 0 ==> parts > 0 && max * parts - max < n)
  {
    DivIs(n + max - 1, max);
  }

  /** If at least two parts are needed, each can be more than half full. */
  lemma HalfAtLeast(n: nat, max: nat, parts: nat, half: nat)
    requires parts >= 2 && max * parts - max < n && 2 * half <= max + 1 && half >= 1
    ensures half * parts <= n
  {
    MulSum(parts - 2, 2, half);
    MulSum(parts - 2, 2, max);
    MulMore(half, max, parts - 2);
    assert max * parts == parts * max && half * parts == parts * half;
  }

  lemma ShareLow(left: nat, parts: nat, low: nat)
    requires parts >= 1 && low * parts <= left
    ensures low <= left / parts && low * (parts - 1) <= left - left / parts
  {
    var f := left / parts;
    DivIs(left, parts);
    if f < low {
      MulMore(f + 1, low, parts);
      MulSum(f, 1, parts);
    }
    MulMore(low, f, parts - 1);
    MulSum(parts - 1, 1, f);
    assert low * (parts - 1) == (parts - 1) * low;
  }

  lemma ShareHigh(left: nat, parts: nat, high: nat)
    requires parts >= 1 && left <= high * parts
    ensures left / parts <= high && left - left / parts <= high * (parts - 1)
  {
    var f, e := left / parts, left % parts;
    DivIs(left, parts);
    MulSum(parts - 1, 1, f);
    MulSum(parts - 1, 1, high);
    assert high * (parts - 1) == (parts - 1) * high && high * parts == parts * high;
    if f > high {
      MulMore(high + 1, f, parts);
      MulSum(high, 1, parts);
    } else if f < high {
      MulMore(f + 1, high, parts - 1);
      MulSum(f, 1, parts - 1);
      assert f * (parts - 1) == (parts - 1) * f && (f + 1) * (parts - 1) == (parts - 1) * (f + 1);
    }
  }

  // ---- Leaves ----

  /** The share of the next node, of `left` that go to `parts` nodes. */
  function Share(left: nat, parts: nat): nat
    requires parts > 0
  {
    left / parts
  }

  lemma ShareWithin(left: nat, parts: nat, low: nat, high: nat)
    requires parts > 0 && low * parts <= left <= high * parts
    ensures low <= Share(left, parts) <= high && Share(left, parts) <= left
    ensures low * (parts - 1) <= left - Share(left, parts) <= high * (parts - 1)
  {
    ShareLow(left, parts, low);
    ShareHigh(left, parts, high);
    ShareLow(left, parts, 0);
  }

  /** Sharing out `left` one part after the other leaves nothing over, with each share within the bounds. */
  ghost predicate Fits(left: nat, parts: nat, low: nat, high: nat) {
    if parts == 0 then left == 0
    else
      var s := Share(left, parts);
      low <= s <= high && s <= left && Fits(left - s, parts - 1, low, high)
  }

  lemma {:induction false} FitsIf(left: nat, parts: nat, low: nat, high: nat)
    requires low * parts <= left <= high * parts
    ensures Fits(left, parts, low, high)
    decreases parts
  {
    if parts > 0 {
      ShareWithin(left, parts, low, high);
      FitsIf(left - Share(left, parts), parts - 1, low, high);
    }
  }

  lemma LeavesNeeded(n: nat, parts: nat)
    requires parts == (n + LEAF_SLOTS - 1) / LEAF_SLOTS
    ensures (parts == 0 <==> n == 0) && Fits(n, parts, if parts > 1 then LEAF_SLOTS / 2 else 1, LEAF_SLOTS)
  {
    PartsNeeded(n, LEAF_SLOTS, parts);
    if parts > 1 {
      HalfAtLeast(n, LEAF_SLOTS, parts, LEAF_SLOTS / 2);
    }
    FitsIf(n, parts, if parts > 1 then LEAF_SLOTS / 2 else 1, LEAF_SLOTS);
  }

  lemma NextLeaf(leaves: seq<Node>, id: Id, items: seq<Item>, it: nat, slotUse: nat)
    requires Sorted(items) && it + slotUse <= |items| && Concat(leaves) == items[..it]
    ensures Concat(leaves + [Leaf(id, items[it..it + slotUse])]) == items[..it + slotUse]
    ensures Sorted(items[it..it + slotUse])
  {
    var leaf := Leaf(id, items[it..it + slotUse]);
    ConcatSplit(leaves, [leaf]);
    ConcatOne(leaf);
    assert items[..it + slotUse] == items[..it] + items[it..it + slotUse];
  }

  /** The list of leaves with the next one at its end. */
  lemma NextLinked(leaves: seq<Node>, items: seq<Item>, links: Links)
    requires Linked(links, CensusAll(leaves).ids) && CensusAll(leaves).inners == 0
    ensures var more := CensusAll(leaves + [Leaf(links.nextId, items)]);
            Linked(AppendLeaf(links), more.ids) && more.inners == 0
  {
    var leaf := Leaf(links.nextId, items);
    CensusSplit(leaves, [leaf]);
    CensusTwo(leaf, leaf);
    AppendLeafLinked(links, CensusAll(leaves).ids);
  }

  /** The leaves, filled evenly, and the list that runs through them. */
  method BuildLeaves(items: seq<Item>, links: Links) returns (leaves: seq<Node>, tied: Links)
    requires Sorted(items) && Linked(links, [])
    ensures Concat(leaves) == items && (leaves == [] <==> items == [])
    ensures forall i :: 0 <= i < |leaves| ==>
              Ok(leaves[i]) && leaves[i].Leaf? && (|leaves| > 1 ==> !IsUnderflow(leaves[i]))
    ensures Linked(tied, CensusAll(leaves).ids) && CensusAll(leaves).inners == 0 && tied.innerNodes == links.innerNodes
  {
    var numItems: nat := |items|;
    var numLeaves: nat := (numItems + LEAF_SLOTS - 1) / LEAF_SLOTS;
    LeavesNeeded(numItems, numLeaves);
    ghost var low := if numLeaves > 1 then LEAF_SLOTS / 2 else 1;
    leaves, tied := [], links;
    var it: nat := 0;
    for i := 0 to numLeaves
      invariant |leaves| == i && it + numItems == |items|
      invariant Fits(numItems, numLeaves - i, low, LEAF_SLOTS)
      invariant Concat(leaves) == items[..it]
      invariant forall j :: 0 <= j < |leaves| ==> LeafOk(leaves[j], low)
      invariant Linked(tied, CensusAll(leaves).ids) && CensusAll(leaves).inners == 0
      invariant tied.innerNodes == links.innerNodes
    {
      var slotUse := Share(numItems, numLeaves - i);
      NextLeaf(leaves, tied.nextId, items, it, slotUse);
      NextLinked(leaves, items[it..it + slotUse], tied);
      leaves := leaves + [Leaf(tied.nextId, items[it..it + slotUse])];
      tied := AppendLeaf(tied);
      it := it + slotUse;
      numItems := numItems - slotUse;
    }
    assert items[..it] == items;
  }

  ghost predicate LeafOk(n: Node, low: nat) {
    Ok(n) && n.Leaf? && low <= |n.items|
  }

  // ---- Inner levels ----

  /** A node of the level below, and the largest key under it. */
  datatype Entry = Entry(node: Node, maxKey: Key)

  function NodesOf(es: seq<Entry>): seq<Node> {
    seq(|es|, i requires 0 <= i < |es| => es[i].node)
  }

  function KeysOf(es: seq<Entry>): seq<Key> {
    seq(|es|, i requires 0 <= i < |es| => es[i].maxKey)
  }

  ghost predicate EntryOk(e: Entry, level: nat) {
    ChildOk(e.node, level) && e.maxKey == LastKey(e.node)
  }

  ghost predicate RowOk(es: seq<Entry>, level: nat) {
    (forall i :: 0 <= i < |es| ==> EntryOk(es[i], level)) && Sorted(Concat(NodesOf(es)))
  }

  function Parent(es: seq<Entry>, level: nat): Node
    requires es != []
  {
    Inner(level, KeysOf(es[..|es| - 1]), NodesOf(es))
  }

  method MakeParent(es: seq<Entry>, level: nat) returns (n: Node)
    requires es != []
    ensures n == Parent(es, level)
  {
    var keys, children := [], [];
    for s := 0 to |es| - 1
      invariant keys == KeysOf(es[..s]) && children == NodesOf(es[..s])
    {
      keys := keys + [es[s].maxKey];
      children := children + [es[s].node];
    }
    n := Inner(level, keys, children + [es[|es| - 1].node]);
    assert n.children == NodesOf(es);
  }

  lemma ParentOk(es: seq<Entry>, level: nat)
    requires RowOk(es, level) && 2 <= |es| <= INNER_SLOTS + 1 && level > 0
    ensures Ok(Parent(es, level)) && LastKey(Parent(es, level)) == es[|es| - 1].maxKey
  {
    var n := Parent(es, level);
    forall i | 0 <= i < |n.children| ensures ChildOk(n.children[i], level) {
      assert EntryOk(es[i], level);
    }
    forall i | 0 <= i < |n.keys| ensures n.keys[i] == LastKey(n.children[i]) {
      assert EntryOk(es[i], level);
    }
    var last := |es| - 1;
    assert EntryOk(es[last], level);
    NonEmpty(es[last].node);
    LastOfRow(n.children);
  }

  /** `parents` stand over the entries of `row`, at whatever height, in order. */
  ghost predicate Raised(parents: seq<Entry>, row: seq<Entry>, level: nat, low: nat) {
    && Concat(NodesOf(parents)) == Concat(NodesOf(row))
    && CensusAll(NodesOf(parents)).ids == CensusAll(NodesOf(row)).ids
    && forall i :: 0 <= i < |parents| ==> ParentEntry(parents[i], level, low)
  }

  /** They stand directly above them: there are as many inner nodes more as parents. */
  ghost predicate Grouped(parents: seq<Entry>, row: seq<Entry>, level: nat, low: nat) {
    && Raised(parents, row, level, low)
    && CensusAll(NodesOf(parents)).inners == CensusAll(NodesOf(row)).inners + |parents|
  }

  ghost predicate ParentEntry(e: Entry, level: nat, low: nat) {
    Ok(e.node) && Level(e.node) == level && e.node.Inner? && e.maxKey == LastKey(e.node) && low <= |e.node.children|
  }

  lemma NodesSplit(a: seq<Entry>, b: seq<Entry>)
    ensures NodesOf(a + b) == NodesOf(a) + NodesOf(b)
    ensures Concat(NodesOf(a + b)) == Concat(NodesOf(a)) + Concat(NodesOf(b))
  {
    assert NodesOf(a + b) == NodesOf(a) + NodesOf(b);
    ConcatSplit(NodesOf(a), NodesOf(b));
  }

  /** A stretch of a row is a row. */
  lemma RowPart(row: seq<Entry>, level: nat, i: nat, j: nat)
    requires RowOk(row, level) && i <= j <= |row|
    ensures RowOk(row[i..j], level)
  {
    var part := row[i..j];
    assert row == row[..i] + (part + row[j..]);
    NodesSplit(row[..i], part + row[j..]);
    NodesSplit(part, row[j..]);
    SortedParts(Concat(NodesOf(row[..i])), Concat(NodesOf(part + row[j..])));
    SortedParts(Concat(NodesOf(part)), Concat(NodesOf(row[j..])));
    forall k | 0 <= k < |part| ensures EntryOk(part[k], level) {
      assert part[k] == row[i + k];
    }
  }

  lemma GroupItems(parents: seq<Entry>, before: seq<Entry>, part: seq<Entry>, e: Entry)
    requires Concat(NodesOf(parents)) == Concat(NodesOf(before)) && Items(e.node) == Concat(NodesOf(part))
    ensures Concat(NodesOf(parents + [e])) == Concat(NodesOf(before + part))
  {
    NodesSplit(parents, [e]);
    assert NodesOf([e]) == [e.node];
    ConcatOne(e.node);
    NodesSplit(before, part);
  }

  lemma GroupCensus(parents: seq<Entry>, before: seq<Entry>, part: seq<Entry>, e: Entry)
    requires CensusAll(NodesOf(parents)).ids == CensusAll(NodesOf(before)).ids
    requires CensusAll(NodesOf(parents)).inners == CensusAll(NodesOf(before)).inners + |parents|
    requires CensusOf(e.node) == Above(CensusAll(NodesOf(part)))
    ensures CensusAll(NodesOf(parents + [e])).ids == CensusAll(NodesOf(before + part)).ids
    ensures CensusAll(NodesOf(parents + [e])).inners == CensusAll(NodesOf(before + part)).inners + |parents| + 1
  {
    NodesSplit(parents, [e]);
    NodesSplit(before, part);
    CensusSplit(NodesOf(parents), NodesOf([e]));
    CensusSplit(NodesOf(before), NodesOf(part));
    assert NodesOf([e]) == [e.node];
    CensusTwo(e.node, e.node);
  }

  lemma NewParent(part: seq<Entry>, level: nat, low: nat)
    requires RowOk(part, level) && 2 <= |part| <= INNER_SLOTS + 1 && low <= |part| && level > 0
    ensures ParentEntry(Entry(Parent(part, level), part[|part| - 1].maxKey), level, low)
    ensures Items(Parent(part, level)) == Concat(NodesOf(part))
  {
    ParentOk(part, level);
  }

  lemma OneMoreGroup(parents: seq<Entry>, before: seq<Entry>, part: seq<Entry>, e: Entry, level: nat, low: nat)
    requires RowOk(part, level) && 2 <= |part| <= INNER_SLOTS + 1 && low <= |part| && level > 0
    requires Grouped(parents, before, level, low) && e == Entry(Parent(part, level), part[|part| - 1].maxKey)
    ensures Grouped(parents + [e], before + part, level, low)
  {
    NewParent(part, level, low);
    GroupItems(parents, before, part, e);
    GroupCensus(parents, before, part, e);
  }

  /** The next parent, above the next stretch of the row. */
  method GroupNext(ghost parents: seq<Entry>, ghost row: seq<Entry>, part: seq<Entry>, level: nat, ghost low: nat,
                   ghost i: nat)
    returns (e: Entry)
    requires RowOk(row, level) && i + |part| <= |row| && part == row[i..i + |part|]
    requires 2 <= |part| <= INNER_SLOTS + 1 && low <= |part| && level > 0 && Grouped(parents, row[..i], level, low)
    ensures Grouped(parents + [e], row[..i + |part|], level, low)
  {
    RowPart(row, level, i, i + |part|);
    var n := MakeParent(part, level);
    e := Entry(n, part[|part| - 1].maxKey);
    OneMoreGroup(parents, row[..i], part, e, level, low);
    assert row[..i + |part|] == row[..i] + part;
  }

  /** The bounds for the number of children when a row of `n` is put under `parts` parents. */
  lemma ParentsNeeded(n: nat, parts: nat)
    requires n >= 2 && parts == (n + (INNER_SLOTS + 1) - 1) / (INNER_SLOTS + 1)
    ensures 1 <= parts < n && Fits(n, parts, if parts > 1 then INNER_SLOTS / 2 + 1 else 2, INNER_SLOTS + 1)
  {
    PartsNeeded(n, INNER_SLOTS + 1, parts);
    if parts > 1 {
      HalfAtLeast(n, INNER_SLOTS + 1, parts, INNER_SLOTS / 2 + 1);
      MulMore(2, INNER_SLOTS / 2 + 1, parts);
    }
    FitsIf(n, parts, if parts > 1 then INNER_SLOTS / 2 + 1 else 2, INNER_SLOTS + 1);
  }

  /** Puts the next parent of leaves in entry `i` of another array. */
  method GroupInto(next: array<Entry>, i: nat, row: seq<Entry>, at: nat, share: nat, ghost low: nat)
    requires i < next.Length && at + share <= |row| && RowOk(row, 1)
    requires 2 <= share <= INNER_SLOTS + 1 && low <= share && Grouped(next[..i], row[..at], 1, low)
    modifies next
    ensures Grouped(next[..i + 1], row[..at + share], 1, low)
  {
    ghost var parents := next[..i];
    var e := GroupNext(parents, row, row[at..at + share], 1, low, at);
    next[i] := e;
    assert next[..i + 1] == parents + [e];
  }

  /** The first inner level, above the leaves. */
  method FirstLevel(row: seq<Entry>, links: Links) returns (next: array<Entry>, more: Links)
    requires |row| >= 2 && RowOk(row, 1)
    ensures fresh(next) && 1 <= next.Length < |row|
    ensures Grouped(next[..], row, 1, if next.Length > 1 then INNER_SLOTS / 2 + 1 else 2)
    ensures more == links.(innerNodes := links.innerNodes + next.Length)
  {
    var numLeaves: nat := |row|;
    var numParents: nat := (numLeaves + (INNER_SLOTS + 1) - 1) / (INNER_SLOTS + 1);
    ParentsNeeded(numLeaves, numParents);
    ghost var low := if numParents > 1 then INNER_SLOTS / 2 + 1 else 2;
    next, more := new Entry[numParents](_ => row[0]), links;
    var at: nat := 0;
    assert next[..0] == [] && row[..0] == [];
    for i := 0 to numParents
      invariant at + numLeaves == |row| && Fits(numLeaves, numParents - i, low, INNER_SLOTS + 1)
      invariant Grouped(next[..i], row[..at], 1, low)
      invariant more == links.(innerNodes := links.innerNodes + i)
    {
      var share := Share(numLeaves, numParents - i);
      more := MoreInner(more);
      GroupInto(next, i, row, at, share, low);
      at := at + share;
      numLeaves := numLeaves - share;
    }
    assert next[..numParents] == next[..] && row[..at] == row;
  }

  /** Puts the next parent in entry `i`, which has been read. */
  method GroupInPlace(next: array<Entry>, i: nat, innerIndex: nat, share: nat, numChildren: nat, level: nat,
                      ghost row: seq<Entry>, ghost low: nat)
    requires numChildren <= next.Length && |row| == numChildren && innerIndex + share <= numChildren && i <= innerIndex
    requires RowOk(row, level) && 2 <= share <= INNER_SLOTS + 1 && low <= share && level > 0
    requires next[innerIndex..numChildren] == row[innerIndex..] && Grouped(next[..i], row[..innerIndex], level, low)
    modifies next
    ensures Grouped(next[..i + 1], row[..innerIndex + share], level, low)
    ensures next[innerIndex + share..numChildren] == row[innerIndex + share..]
  {
    ghost var parents, all := next[..i], next[..];
    assert next[innerIndex..numChildren] == all[innerIndex..numChildren];
    Unread(all, row, innerIndex, share);
    assert next[innerIndex..innerIndex + share] == all[innerIndex..innerIndex + share];
    var e := GroupNext(parents, row, next[innerIndex..innerIndex + share], level, low, innerIndex);
    next[i] := e;
    assert next[..i + 1] == parents + [e];
    assert next[innerIndex + share..numChildren] == all[innerIndex + share..numChildren];
  }

  /** A further level, in the array that holds the level below: an entry is only overwritten once it has
      been read. */
  method NextLevel(next: array<Entry>, numChildren: nat, level: nat, links: Links)
    returns (numParents: nat, more: Links)
    requires 2 <= numChildren <= next.Length && RowOk(next[..numChildren], level) && level > 0
    modifies next
    ensures 1 <= numParents < numChildren
    ensures Grouped(next[..numParents], old(next[..numChildren]), level,
                    if numParents > 1 then INNER_SLOTS / 2 + 1 else 2)
    ensures more == links.(innerNodes := links.innerNodes + numParents)
  {
    ghost var row := next[..numChildren];
    var left: nat := numChildren;
    numParents, more := (numChildren + (INNER_SLOTS + 1) - 1) / (INNER_SLOTS + 1), links;
    ParentsNeeded(numChildren, numParents);
    ghost var low := if numParents > 1 then INNER_SLOTS / 2 + 1 else 2;
    var innerIndex: nat := 0;
    assert next[..0] == [] && row[..0] == [];
    for i := 0 to numParents
      invariant innerIndex + left == numChildren && i <= innerIndex && Fits(left, numParents - i, low, INNER_SLOTS + 1)
      invariant next[innerIndex..numChildren] == row[innerIndex..]
      invariant Grouped(next[..i], row[..innerIndex], level, low)
      invariant more == links.(innerNodes := links.innerNodes + i)
    {
      var share := Share(left, numParents - i);
      more := MoreInner(more);
      GroupInPlace(next, i, innerIndex, share, numChildren, level, row, low);
      innerIndex := innerIndex + share;
      left := left - share;
    }
    assert row[..innerIndex] == row;
  }

  lemma Unread(all: seq<Entry>, row: seq<Entry>, at: nat, share: nat)
    requires at + share <= |row| <= |all| && all[at..|row|] == row[at..]
    ensures all[at..at + share] == row[at..at + share] && all[at + share..|row|] == row[at + share..]
  {
    assert all[at..at + share] == all[at..|row|][..share];
    assert all[at + share..|row|] == all[at..|row|][share..];
  }

  // ---- The tree ----

  function LeafEntries(leaves: seq<Node>): seq<Entry> {
    seq(|leaves|, i requires 0 <= i < |leaves| => Entry(leaves[i], LastKey(leaves[i])))
  }

  /** The parents of one level are the row of the next. */
  lemma NextRow(parents: seq<Entry>, row: seq<Entry>, level: nat)
    requires Raised(parents, row, level, INNER_SLOTS / 2 + 1) && Sorted(Concat(NodesOf(row)))
    ensures RowOk(parents, level + 1)
  {
    forall i | 0 <= i < |parents| ensures EntryOk(parents[i], level + 1) {
      assert ParentEntry(parents[i], level, INNER_SLOTS / 2 + 1);
    }
  }

  /** An empty tree has no root. */
  lemma EmptyHasNoRoot(t: Tree)
    requires TreeOk(t) && t.itemCount == 0
    ensures t.root.None?
  {
    if t.root.Some? {
      NonEmpty(t.root.value);
    }
  }

  /** Bulk loading a sorted sequence into an empty tree gives a tree that passes every check of `verify` and
      holds exactly the sequence. */
  method BulkLoad(empty: Tree, items: seq<Item>) returns (t: Tree)
    requires TreeOk(empty) && empty.itemCount == 0 && Sorted(items)
    ensures TreeOk(t) && Contents(t) == items
  {
    EmptyHasNoRoot(empty);
    var leaves, links := BuildLeaves(items, empty.links);
    if |leaves| == 0 {
      return Tree(None, 0, links);
    }
    if |leaves| == 1 {
      ConcatOne(leaves[0]);
      CensusTwo(leaves[0], leaves[0]);
      assert leaves == [leaves[0]];
      return Tree(Some(leaves[0]), |items|, links);
    }
    var row := LeafEntries(leaves);
    assert NodesOf(row) == leaves;
    var root;
    root, links := BuildInner(row, links);
    t := Tree(Some(root), |items|, links);
  }

  /** The inner levels, up to the one that is a single node. */
  method BuildInner(row: seq<Entry>, links: Links) returns (root: Node, more: Links)
    requires |row| >= 2 && RowOk(row, 1) && Linked(links, CensusAll(NodesOf(row)).ids)
    requires links.innerNodes == CensusAll(NodesOf(row)).inners
    ensures Ok(root) && Items(root) == Concat(NodesOf(row))
    ensures Linked(more, CensusOf(root).ids) && more.innerNodes == CensusOf(root).inners
  {
    var next;
    next, more := FirstLevel(row, links);
    var numParents, level := next.Length, 1;
    assert next[..numParents] == next[..];
    while numParents != 1
      invariant 1 <= numParents <= next.Length && level >= 1
      invariant Raised(next[..numParents], row, level, if numParents > 1 then INNER_SLOTS / 2 + 1 else 2)
      invariant more == links.(innerNodes := CensusAll(NodesOf(next[..numParents])).inners)
      decreases numParents
    {
      NextRow(next[..numParents], row, level);
      level := level + 1;
      numParents, more := NextLevel(next, numParents, level, more);
    }
    root := next[0].node;
    assert ParentEntry(next[..1][0], level, 2);
    assert NodesOf(next[..1]) == [root];
    ConcatOne(root);
    CensusTwo(root, root);
    InnerApart(links, more, CensusOf(root).ids);
  }
}
