/** Insertion into the B+ tree, with splits of leaves and inner nodes and growth at the root. */
module StxInsert {
  import opened Options
  import opened Slots
  import opened StxLinks
  import opened StxTree

  datatype Split = Split(key: Key, node: Node)

  /** The node after the insertion, the node split off to its right if there is one, whether the pair went in,
      and the list of leaves and the counts of nodes with that. */
  datatype Result = Result(node: Node, split: Option<Split>, added: bool, links: Links)

  function ItemKeys(items: seq<Item>): seq<Key> {
    seq(|items|, i requires 0 <= i < |items| => items[i].key)
  }

  function InsertLeaf(id: Id, items: seq<Item>, item: Item, duplicates: bool, links: Links): Result {
    var slot := Lower(ItemKeys(items), item.key);
    if !duplicates && slot < |items| && items[slot].key == item.key then
      Result(Leaf(id, items), None, false, links)
    else if |items| != LEAF_SLOTS then
      Result(Leaf(id, InsertAt(items, slot, item)), None, true, links)
    else
      var mid, newId, tied := |items| / 2, links.nextId, SplitLeaf(links, id);
      if slot >= mid then
        var right := Leaf(newId, InsertAt(items[mid..], slot - mid, item));
        Result(Leaf(id, items[..mid]), Some(Split(items[mid - 1].key, right)), true, tied)
      else
        var left := InsertAt(items[..mid], slot, item);
        var key := if slot == |left| - 1 then item.key else items[mid - 1].key;
        Result(Leaf(id, left), Some(Split(key, Leaf(newId, items[mid..]))), true, tied)
  }

  /** Where a full inner node is cut when a key is to go in at `slot`. */
  function CutPlace(slotUse: nat, slot: nat): nat
    requires slotUse >= 2
  {
    var mid := slotUse / 2;
    if slot <= mid && mid > slotUse - (mid + 1) then mid - 1 else mid
  }

  /** The child at `slot` has been split: `key` and `child` go in to the right of it. */
  function AddChild(level: nat, keys: seq<Key>, children: seq<Node>, slot: nat, key: Key, child: Node, links: Links)
    : Result
    requires slot <= |keys| && |children| == |keys| + 1 && |keys| <= INNER_SLOTS
  {
    if |keys| != INNER_SLOTS then
      Result(Inner(level, InsertAt(keys, slot, key), InsertAt(children, slot + 1, child)), None, true, links)
    else
      var mid := CutPlace(|keys|, slot);
      var leftKeys, leftChildren := keys[..mid], children[..mid + 1];
      var rightKeys, rightChildren := keys[mid + 1..], children[mid + 1..];
      if slot == mid + 1 && mid < |rightKeys| then
        Result(Inner(level, leftKeys + [keys[mid]], leftChildren + [rightChildren[0]]),
               Some(Split(key, Inner(level, rightKeys, rightChildren[0 := child]))), true, MoreInner(links))
      else if slot >= mid + 1 then
        var at := slot - (mid + 1);
        var right := Inner(level, InsertAt(rightKeys, at, key), InsertAt(rightChildren, at + 1, child));
        Result(Inner(level, leftKeys, leftChildren), Some(Split(keys[mid], right)), true, MoreInner(links))
      else
        Result(Inner(level, InsertAt(leftKeys, slot, key), InsertAt(leftChildren, slot + 1, child)),
               Some(Split(keys[mid], Inner(level, rightKeys, rightChildren))), true, MoreInner(links))
  }

  function InsertDescend(n: Node, item: Item, duplicates: bool, links: Links): Result
    requires Ok(n)
    decreases n
  {
    match n
    case Leaf(id, items) => InsertLeaf(id, items, item, duplicates, links)
    case Inner(level, keys, children) =>
      var slot := Lower(keys, item.key);
      ChildAt(n, slot);
      Rejoin(n, slot, InsertDescend(children[slot], item, duplicates, links))
  }

  /** Goes on in a node when the child at `slot` has been dealt with. */
  function Rejoin(n: Node, slot: nat, r: Result): Result
    requires Ok(n) && n.Inner? && slot < |n.children|
  {
    if r.split.None? then Result(Inner(n.level, n.keys, n.children[slot := r.node]), None, r.added, r.links)
    else AddChild(n.level, n.keys, n.children[slot := r.node], slot, r.split.value.key, r.split.value.node, r.links)
  }

  // ---- What an insertion is to do ----

  function All(r: Result): seq<Item> {
    Items(r.node) + if r.split.Some? then Items(r.split.value.node) else []
  }

  function CensusBoth(r: Result): Census {
    Plus(CensusOf(r.node), if r.split.Some? then CensusOf(r.split.value.node) else Census([], 0))
  }

  /** Both halves are sound and at least half full, and the key between them is the maximum of the left. */
  ghost predicate SplitOk(n: Node, r: Result) {
    && Ok(r.node) && Level(r.node) == Level(n) && r.node.Leaf? == n.Leaf?
    && (r.split.None? ==> SlotUse(r.node) >= SlotUse(n))
    && (r.split.Some? ==>
          var right := r.split.value.node;
          && Ok(right) && Level(right) == Level(n) && !IsUnderflow(r.node) && !IsUnderflow(right)
          && r.split.value.key == LastKey(r.node))
  }

  ghost predicate Effect(n: Node, item: Item, duplicates: bool, r: Result) {
    && (r.added <==> duplicates || !HasKey(Items(n), item.key))
    && (if r.added then Inserted(Items(n), All(r), item) else r.split.None? && r.node == n)
  }

  // ---- Leaves ----

  lemma LeafEffect(id: Id, items: seq<Item>, item: Item, duplicates: bool, links: Links)
    requires Ok(Leaf(id, items))
    ensures Effect(Leaf(id, items), item, duplicates, InsertLeaf(id, items, item, duplicates, links))
  {
    var keys := ItemKeys(items);
    var slot := Lower(keys, item.key);
    LowerAt(keys, item.key);
    forall j | 0 <= j < slot ensures items[j].key < item.key {
      BelowLower(keys, item.key, j);
    }
    var r := InsertLeaf(id, items, item, duplicates, links);
    if r.added {
      LeafAll(id, items, item, duplicates, links);
      assert InsertedAt(items, All(r), item, slot);
    }
  }

  lemma LeafHalves(items: seq<Item>, slot: nat, item: Item, mid: nat)
    requires mid <= |items| && slot <= |items|
    ensures slot >= mid ==> items[..mid] + InsertAt(items[mid..], slot - mid, item) == InsertAt(items, slot, item)
    ensures slot < mid ==> InsertAt(items[..mid], slot, item) + items[mid..] == InsertAt(items, slot, item)
  {
    var wide := InsertAt(items, slot, item);
    if slot >= mid {
      CutBefore(items, slot, item, mid);
      CutJoins(wide, mid);
    } else {
      CutAfter(items, slot, item, mid);
      CutJoins(wide, mid + 1);
    }
  }

  lemma LeafAll(id: Id, items: seq<Item>, item: Item, duplicates: bool, links: Links)
    requires |items| >= 1 && InsertLeaf(id, items, item, duplicates, links).added
    ensures var slot := Lower(ItemKeys(items), item.key);
            All(InsertLeaf(id, items, item, duplicates, links)) == InsertAt(items, slot, item)
  {
    var slot, mid := Lower(ItemKeys(items), item.key), |items| / 2;
    var r := InsertLeaf(id, items, item, duplicates, links);
    if |items| == LEAF_SLOTS {
      LeafHalves(items, slot, item, mid);
      assert All(r) == if slot >= mid then items[..mid] + InsertAt(items[mid..], slot - mid, item)
                       else InsertAt(items[..mid], slot, item) + items[mid..];
    } else {
      assert r.split.None? && Items(r.node) == InsertAt(items, slot, item);
    }
  }

  lemma LeafSplitOk(id: Id, items: seq<Item>, item: Item, duplicates: bool, links: Links)
    requires Ok(Leaf(id, items))
    ensures SplitOk(Leaf(id, items), InsertLeaf(id, items, item, duplicates, links))
  {
    var r := InsertLeaf(id, items, item, duplicates, links);
    LeafEffect(id, items, item, duplicates, links);
    if r.added {
      InsertedSorted(items, All(r), item);
      if r.split.Some? {
        SortedParts(Items(r.node), Items(r.split.value.node));
      } else {
        assert All(r) == Items(r.node);
      }
    }
  }

  /** A leaf that is split is followed by the new one in the list; else the list is as it was. */
  lemma LeafRelinks(id: Id, items: seq<Item>, item: Item, duplicates: bool, links: Links, a: seq<Id>, c: seq<Id>)
    requires Linked(links, a + [id] + c)
    ensures var r := InsertLeaf(id, items, item, duplicates, links);
            Relinked(a, Census([id], 0), links, CensusBoth(r), r.links, c) && (!r.added ==> r.links == links)
  {
    var r := InsertLeaf(id, items, item, duplicates, links);
    if r.split.Some? {
      SplitLeafLinked(links, a, id, c);
      assert CensusBoth(r).ids == [id, links.nextId];
    } else {
      assert CensusBoth(r).ids == [id];
    }
  }

  // ---- Inner nodes ----

  /** The node with the new child in, cut before place `m` of its keys. */
  function CutAt(level: nat, keys: seq<Key>, children: seq<Node>, m: nat, links: Links): Result
    requires m < |keys| < |children|
  {
    Result(Inner(level, keys[..m], children[..m + 1]),
           Some(Split(keys[m], Inner(level, keys[m + 1..], children[m + 1..]))), true, MoreInner(links))
  }

  /** The same with the new key and child put in. */
  function CutWide(level: nat, keys: seq<Key>, children: seq<Node>, slot: nat, key: Key, child: Node, links: Links,
                   m: nat): Result
    requires slot <= |keys| && m <= |keys| && |children| == |keys| + 1
  {
    CutAt(level, InsertAt(keys, slot, key), InsertAt(children, slot + 1, child), m, links)
  }

  lemma CutsMiddle(level: nat, keys: seq<Key>, children: seq<Node>, slot: nat, key: Key, child: Node, links: Links)
    requires slot <= |keys| && |children| == |keys| + 1 && |keys| == INNER_SLOTS
    requires slot == CutPlace(|keys|, slot) + 1 && slot < |keys| - slot + 1
    ensures AddChild(level, keys, children, slot, key, child, links)
            == CutWide(level, keys, children, slot, key, child, links, slot)
  {
    var wideKeys, wide := InsertAt(keys, slot, key), InsertAt(children, slot + 1, child);
    assert wideKeys[..slot] == keys[..slot - 1] + [keys[slot - 1]];
    assert wideKeys[slot + 1..] == keys[slot..];
    assert wide[..slot + 1] == children[..slot] + [children[slot]];
    assert wide[slot + 1..] == children[slot..][0 := child];
  }

  lemma CutsLeft(level: nat, keys: seq<Key>, children: seq<Node>, slot: nat, key: Key, child: Node, links: Links)
    requires slot <= |keys| && |children| == |keys| + 1 && |keys| == INNER_SLOTS && slot >= CutPlace(|keys|, slot) + 1
    requires !(slot == CutPlace(|keys|, slot) + 1 && slot < |keys| - slot + 1)
    ensures AddChild(level, keys, children, slot, key, child, links)
            == CutWide(level, keys, children, slot, key, child, links, CutPlace(|keys|, slot))
  {
    var mid := CutPlace(|keys|, slot);
    CutBefore(keys, slot, key, mid + 1);
    CutBefore(children, slot + 1, child, mid + 1);
    assert InsertAt(keys, slot, key)[..mid] == keys[..mid];
  }

  lemma CutsRight(level: nat, keys: seq<Key>, children: seq<Node>, slot: nat, key: Key, child: Node, links: Links)
    requires slot <= |keys| && |children| == |keys| + 1 && |keys| == INNER_SLOTS && slot <= CutPlace(|keys|, slot)
    ensures AddChild(level, keys, children, slot, key, child, links)
            == CutWide(level, keys, children, slot, key, child, links, CutPlace(|keys|, slot) + 1)
  {
    var mid := CutPlace(|keys|, slot);
    CutAfter(keys, slot, key, mid);
    CutAfter(children, slot + 1, child, mid + 1);
    assert InsertAt(keys, slot, key)[mid + 2..] == keys[mid + 1..];
  }

  /** Every way in which a full node is split cuts the wide node in the middle. */
  lemma AddChildCuts(level: nat, keys: seq<Key>, children: seq<Node>, slot: nat, key: Key, child: Node, links: Links)
    returns (m: nat)
    requires slot <= |keys| && |children| == |keys| + 1 && |keys| == INNER_SLOTS
    ensures INNER_SLOTS / 2 <= m <= INNER_SLOTS - INNER_SLOTS / 2
    ensures AddChild(level, keys, children, slot, key, child, links)
            == CutWide(level, keys, children, slot, key, child, links, m)
  {
    var mid := CutPlace(|keys|, slot);
    if slot == mid + 1 && mid < |keys| - (mid + 1) {
      m := mid + 1;
      CutsMiddle(level, keys, children, slot, key, child, links);
    } else if slot >= mid + 1 {
      m := mid;
      CutsLeft(level, keys, children, slot, key, child, links);
    } else {
      m := mid + 1;
      CutsRight(level, keys, children, slot, key, child, links);
    }
  }

  // ---- One level ----

  lemma LastStays(before: seq<Item>, after: seq<Item>, item: Item)
    requires Inserted(before, after, item) && before != [] && item.key <= before[|before| - 1].key
    ensures after != [] && after[|after| - 1] == before[|before| - 1]
  {
    var i :| InsertedAt(before, after, item, i);
  }

  /** The child at `slot` is replaced by one that holds more. */
  lemma ReplaceOk(n: Node, slot: nat, c: Node)
    requires Ok(n) && n.Inner? && slot < |n.children| && ChildOk(c, n.level)
    requires slot < |n.keys| ==> n.keys[slot] == LastKey(c)
    requires Sorted(Concat(n.children[..slot]) + Items(c) + Concat(n.children[slot + 1..]))
    ensures Ok(Inner(n.level, n.keys, n.children[slot := c]))
    ensures Concat(n.children[slot := c]) == Concat(n.children[..slot]) + Items(c) + Concat(n.children[slot + 1..])
  {
    var more := n.children[slot := c];
    ConcatAt(more, slot);
    assert more[..slot] == n.children[..slot] && more[slot + 1..] == n.children[slot + 1..];
  }

  /** The child at `slot` is replaced by two. */
  lemma WidenOk(n: Node, slot: nat, c: Node, key: Key, d: Node)
    requires Ok(n) && n.Inner? && slot < |n.children| && ChildOk(c, n.level) && ChildOk(d, n.level)
    requires key == LastKey(c) && (slot < |n.keys| ==> n.keys[slot] == LastKey(d))
    requires Sorted(Concat(n.children[..slot]) + (Items(c) + Items(d)) + Concat(n.children[slot + 1..]))
    ensures WideOk(n.level, InsertAt(n.keys, slot, key), InsertAt(n.children[slot := c], slot + 1, d))
    ensures Concat(InsertAt(n.children[slot := c], slot + 1, d))
            == Concat(n.children[..slot]) + (Items(c) + Items(d)) + Concat(n.children[slot + 1..])
  {
    WidenItems(n.children, slot, c, d);
    WidenKeys(n, slot, c, key, d);
    WidenChildren(n, slot, c, d);
  }

  lemma WidenChildren(n: Node, slot: nat, c: Node, d: Node)
    requires Ok(n) && n.Inner? && slot < |n.children| && ChildOk(c, n.level) && ChildOk(d, n.level)
    ensures ChildrenOk(InsertAt(n.children[slot := c], slot + 1, d), n.level)
  {
    var wide := InsertAt(n.children[slot := c], slot + 1, d);
    forall i | 0 <= i < |wide| ensures ChildOk(wide[i], n.level) {
      if i < slot {
        assert wide[i] == n.children[i];
      } else if i > slot + 1 {
        assert wide[i] == n.children[i - 1];
      }
    }
  }

  lemma WidenItems(children: seq<Node>, slot: nat, c: Node, d: Node)
    requires slot < |children|
    ensures Concat(InsertAt(children[slot := c], slot + 1, d))
            == Concat(children[..slot]) + (Items(c) + Items(d)) + Concat(children[slot + 1..])
  {
    var wide, rest := InsertAt(children[slot := c], slot + 1, d), children[slot + 1..];
    assert wide == children[..slot] + ([c, d] + rest);
    ConcatSplit(children[..slot], [c, d] + rest);
    assert ([c, d] + rest)[1..] == [d] + rest && ([d] + rest)[1..] == rest;
    assert Concat([c, d] + rest) == Items(c) + (Items(d) + Concat(rest));
  }

  lemma WidenKeys(n: Node, slot: nat, c: Node, key: Key, d: Node)
    requires Ok(n) && n.Inner? && slot < |n.children|
    requires key == LastKey(c) && (slot < |n.keys| ==> n.keys[slot] == LastKey(d))
    ensures KeysOk(InsertAt(n.keys, slot, key), InsertAt(n.children[slot := c], slot + 1, d))
  {
    var keys, wide := InsertAt(n.keys, slot, key), InsertAt(n.children[slot := c], slot + 1, d);
    forall i | 0 <= i < |keys| ensures keys[i] == LastKey(wide[i]) {
      if i < slot {
        assert wide[i] == n.children[i];
      } else if i > slot + 1 {
        assert wide[i] == n.children[i - 1] && keys[i] == n.keys[i - 1];
      }
    }
  }

  /** A child that was split goes into a sound node, and the node splits if it was full. */
  lemma AddChildOk(n: Node, slot: nat, c: Node, key: Key, d: Node, links: Links)
    requires Ok(n) && n.Inner? && slot < |n.children|
    requires WideOk(n.level, InsertAt(n.keys, slot, key), InsertAt(n.children[slot := c], slot + 1, d))
    ensures var r := AddChild(n.level, n.keys, n.children[slot := c], slot, key, d, links);
            SplitOk(n, r) && All(r) == Concat(InsertAt(n.children[slot := c], slot + 1, d))
  {
    var keys, wide := InsertAt(n.keys, slot, key), InsertAt(n.children[slot := c], slot + 1, d);
    if |n.keys| == INNER_SLOTS {
      var m := AddChildCuts(n.level, n.keys, n.children[slot := c], slot, key, d, links);
      CutOk(n.level, keys, wide, m);
    }
  }

  /** The leaves are those of the wide node, and an inner node is counted for each that there is. */
  lemma AddChildCensus(n: Node, slot: nat, c: Node, key: Key, d: Node, links: Links)
    requires Ok(n) && n.Inner? && slot < |n.children|
    ensures var r := AddChild(n.level, n.keys, n.children[slot := c], slot, key, d, links);
            var all := CensusAll(InsertAt(n.children[slot := c], slot + 1, d));
            && CensusBoth(r).ids == all.ids && r.links == links.(innerNodes := r.links.innerNodes)
            && r.links.innerNodes - links.innerNodes + 1 == CensusBoth(r).inners - all.inners
  {
    var r := AddChild(n.level, n.keys, n.children[slot := c], slot, key, d, links);
    var wide := InsertAt(n.children[slot := c], slot + 1, d);
    if |n.keys| == INNER_SLOTS {
      var m := AddChildCuts(n.level, n.keys, n.children[slot := c], slot, key, d, links);
      CutJoins(wide, m + 1);
      CensusSplit(wide[..m + 1], wide[m + 1..]);
    } else {
      PlusNone(CensusOf(r.node));
    }
  }

  lemma {:induction false} InsertDescendOk(n: Node, item: Item, duplicates: bool, links: Links)
    requires Ok(n)
    ensures var r := InsertDescend(n, item, duplicates, links);
            SplitOk(n, r) && Effect(n, item, duplicates, r)
    decreases n
  {
    if n.Leaf? {
      LeafEffect(n.id, n.items, item, duplicates, links);
      LeafSplitOk(n.id, n.items, item, duplicates, links);
    } else {
      var slot := Lower(n.keys, item.key);
      assert ChildOk(n.children[slot], n.level);
      InsertDescendOk(n.children[slot], item, duplicates, links);
      InsertInnerOk(n, item, duplicates, slot, InsertDescend(n.children[slot], item, duplicates, links));
    }
  }

  /** The leaves below the node stay in the list between the same others, the new one in its place. */
  lemma {:induction false} InsertRelinks(n: Node, item: Item, duplicates: bool, links: Links, a: seq<Id>, c: seq<Id>)
    requires Ok(n) && Linked(links, a + CensusOf(n).ids + c)
    ensures var r := InsertDescend(n, item, duplicates, links);
            Relinked(a, CensusOf(n), links, CensusBoth(r), r.links, c) && (!r.added ==> r.links == links)
    decreases n
  {
    if n.Leaf? {
      LeafRelinks(n.id, n.items, item, duplicates, links, a, c);
    } else {
      var slot := Lower(n.keys, item.key);
      ChildAt(n, slot);
      var before, after := CensusAll(n.children[..slot]).ids, CensusAll(n.children[slot + 1..]).ids;
      CensusAt(n.children, slot);
      Regroup(a, before, CensusOf(n.children[slot]).ids, after, c);
      InsertRelinks(n.children[slot], item, duplicates, links, a + before, after + c);
      InsertDescendOk(n.children[slot], item, duplicates, links);
      RejoinRelinks(n, slot, InsertDescend(n.children[slot], item, duplicates, links), links, a, c);
    }
  }

  /** What the child was relinked to, with the leaves of its siblings on both sides. */
  lemma Outward(n: Node, slot: nat, now: Census, l: Links, l': Links, a: seq<Id>, c: seq<Id>)
    requires n.Inner? && slot < |n.children|
    requires var before, after := CensusAll(n.children[..slot]).ids, CensusAll(n.children[slot + 1..]).ids;
             Relinked(a + before, CensusOf(n.children[slot]), l, now, l', after + c)
    ensures var all := Plus(Plus(CensusAll(n.children[..slot]), now), CensusAll(n.children[slot + 1..]));
            Relinked(a, CensusOf(n), l, Above(all), l', c)
  {
    CensusAt(n.children, slot);
    Regroup(a, CensusAll(n.children[..slot]).ids, now.ids, CensusAll(n.children[slot + 1..]).ids, c);
  }

  lemma RejoinRelinks(n: Node, slot: nat, r: Result, links: Links, a: seq<Id>, c: seq<Id>)
    requires Ok(n) && n.Inner? && slot < |n.children| && (!r.added ==> r.split.None? && r.links == links)
    requires var before, after := CensusAll(n.children[..slot]).ids, CensusAll(n.children[slot + 1..]).ids;
             Relinked(a + before, CensusOf(n.children[slot]), links, CensusBoth(r), r.links, after + c)
    ensures var q := Rejoin(n, slot, r);
            Relinked(a, CensusOf(n), links, CensusBoth(q), q.links, c) && (!q.added ==> q.links == links)
  {
    var q := Rejoin(n, slot, r);
    Outward(n, slot, CensusBoth(r), links, r.links, a, c);
    if r.split.None? {
      ReplaceCensus(n.children, slot, r.node);
      PlusNone(CensusOf(r.node));
      PlusNone(CensusOf(q.node));
    } else {
      WidenCensus(n.children, slot, r.node, r.split.value.node);
      AddChildCensus(n, slot, r.node, r.split.value.key, r.split.value.node, r.links);
      InnerApart(r.links, q.links, a + CensusBoth(q).ids + c);
    }
  }

  lemma ReplaceCensus(children: seq<Node>, slot: nat, c: Node)
    requires slot < |children|
    ensures CensusAll(children[slot := c])
            == Plus(Plus(CensusAll(children[..slot]), CensusOf(c)), CensusAll(children[slot + 1..]))
  {
    var more := children[slot := c];
    CensusAt(more, slot);
    assert more[..slot] == children[..slot] && more[slot + 1..] == children[slot + 1..];
  }

  lemma WidenCensus(children: seq<Node>, slot: nat, c: Node, d: Node)
    requires slot < |children|
    ensures CensusAll(InsertAt(children[slot := c], slot + 1, d))
            == Plus(Plus(CensusAll(children[..slot]), Plus(CensusOf(c), CensusOf(d))), CensusAll(children[slot + 1..]))
  {
    var wide, rest := InsertAt(children[slot := c], slot + 1, d), children[slot + 1..];
    assert wide == children[..slot] + ([c, d] + rest);
    CensusFour(children[..slot], c, d, rest);
  }

  /** From the insertion into the child to the insertion into the node. */
  lemma InsertInnerOk(n: Node, item: Item, duplicates: bool, slot: nat, r: Result)
    requires Ok(n) && n.Inner? && slot == Lower(n.keys, item.key) && slot < |n.children|
    requires SplitOk(n.children[slot], r) && Effect(n.children[slot], item, duplicates, r)
    ensures SplitOk(n, Rejoin(n, slot, r)) && Effect(n, item, duplicates, Rejoin(n, slot, r))
  {
    KeyInChild(n, item.key);
    assert ChildOk(n.children[slot], n.level);
    if !r.added {
      assert n.children[slot := r.node] == n.children;
    } else if r.split.None? {
      RejoinOne(n, item, slot, r);
    } else {
      RejoinTwo(n, item, slot, r);
    }
  }

  lemma RejoinOne(n: Node, item: Item, slot: nat, r: Result)
    requires Ok(n) && n.Inner? && slot == Lower(n.keys, item.key) && slot < |n.children| && r.split.None?
    requires ChildOk(r.node, n.level) && Inserted(Items(n.children[slot]), All(r), item)
    ensures SplitOk(n, Rejoin(n, slot, r)) && Inserted(Items(n), All(Rejoin(n, slot, r)), item)
  {
    assert All(r) == Items(r.node);
    InsertedHere(n, item, slot, r);
    if slot < |n.keys| {
      SeparatorStays(n, item, slot, r);
    }
    InsertedSorted(Items(n), Concat(n.children[..slot]) + All(r) + Concat(n.children[slot + 1..]), item);
    ReplaceOk(n, slot, r.node);
    assert All(Rejoin(n, slot, r)) == Concat(n.children[slot := r.node]);
  }

  lemma RejoinTwo(n: Node, item: Item, slot: nat, r: Result)
    requires Ok(n) && n.Inner? && slot == Lower(n.keys, item.key) && slot < |n.children| && r.split.Some?
    requires ChildOk(r.node, n.level) && ChildOk(r.split.value.node, n.level) && r.split.value.key == LastKey(r.node)
    requires Inserted(Items(n.children[slot]), All(r), item)
    ensures SplitOk(n, Rejoin(n, slot, r)) && Inserted(Items(n), All(Rejoin(n, slot, r)), item)
  {
    var key, right := r.split.value.key, r.split.value.node;
    NonEmpty(right);
    InsertedHere(n, item, slot, r);
    if slot < |n.keys| {
      SeparatorStays(n, item, slot, r);
    }
    InsertedSorted(Items(n), Concat(n.children[..slot]) + All(r) + Concat(n.children[slot + 1..]), item);
    WidenOk(n, slot, r.node, key, right);
    AddChildOk(n, slot, r.node, key, right, r.links);
  }

  lemma InsertedHere(n: Node, item: Item, slot: nat, r: Result)
    requires Ok(n) && n.Inner? && slot == Lower(n.keys, item.key) && slot < |n.children|
    requires Inserted(Items(n.children[slot]), All(r), item)
    ensures Inserted(Items(n), Concat(n.children[..slot]) + All(r) + Concat(n.children[slot + 1..]), item)
  {
    SlotDivides(n, item.key);
    InsertedWithin(Concat(n.children[..slot]), Items(n.children[slot]), All(r), Concat(n.children[slot + 1..]), item);
  }

  /** The separator after the slot is still the maximum before it. */
  lemma SeparatorStays(n: Node, item: Item, slot: nat, r: Result)
    requires Ok(n) && n.Inner? && slot == Lower(n.keys, item.key) && slot < |n.keys|
    requires Inserted(Items(n.children[slot]), All(r), item) && (r.split.Some? ==> Items(r.split.value.node) != [])
    ensures n.keys[slot] == if r.split.Some? then LastKey(r.split.value.node) else LastKey(r.node)
  {
    LowerAt(n.keys, item.key);
    assert ChildOk(n.children[slot], n.level);
    NonEmpty(n.children[slot]);
    LastStays(Items(n.children[slot]), All(r), item);
    assert r.split.None? ==> All(r) == Items(r.node);
  }

  // ---- The tree ----

  /** Inserts into an empty tree as into an empty leaf, and puts a new root above a root that was split. */
  function InsertStart(t: Tree, item: Item, duplicates: bool): (Tree, bool)
    requires TreeOk(t)
  {
    var r := if t.root.None? then InsertLeaf(t.links.nextId, [], item, duplicates, FirstLeaf(t.links))
             else InsertDescend(t.root.value, item, duplicates, t.links);
    (Tree(Some(NewRoot(r)), t.itemCount + (if r.added then 1 else 0), NewRootLinks(r)), r.added)
  }

  /** An insertion keeps every check of `verify`.  It puts the pair at its lower bound place, unless
      duplicates are refused and the key is there, when it changes nothing. */
  lemma InsertStartOk(t: Tree, item: Item, duplicates: bool)
    requires TreeOk(t)
    ensures var (t', added) := InsertStart(t, item, duplicates);
            && TreeOk(t')
            && (added <==> duplicates || !HasKey(Contents(t), item.key))
            && (if added then Inserted(Contents(t), Contents(t'), item) else t' == t)
  {
    if t.root.None? {
      FirstItem(t.links, item, duplicates);
    } else {
      var n := t.root.value;
      InsertDescendOk(n, item, duplicates, t.links);
      assert [] + CensusOf(n).ids + [] == CensusOf(n).ids;
      InsertRelinks(n, item, duplicates, t.links, [], []);
      RootOk(n, InsertDescend(n, item, duplicates, t.links), item, duplicates);
      NewRootLinked(n, InsertDescend(n, item, duplicates, t.links), t.links);
    }
  }

  lemma FirstItem(links: Links, item: Item, duplicates: bool)
    requires Linked(links, [])
    ensures var r := InsertLeaf(links.nextId, [], item, duplicates, FirstLeaf(links));
            r == Result(Leaf(links.nextId, [item]), None, true, FirstLeaf(links))
    ensures Ok(Leaf(links.nextId, [item])) && Inserted([], [item], item) && !HasKey([], item.key)
    ensures Linked(FirstLeaf(links), [links.nextId])
  {
    assert InsertAt([], 0, item) == [item];
    assert InsertedAt([], [item], item, 0);
    FirstLeafLinked(links);
  }

  function NewRoot(r: Result): Node {
    if r.split.None? then r.node else Inner(Level(r.node) + 1, [r.split.value.key], [r.node, r.split.value.node])
  }

  function NewRootLinks(r: Result): Links {
    if r.split.None? then r.links else MoreInner(r.links)
  }

  lemma NewRootLinked(n: Node, r: Result, links: Links)
    requires Relinked([], CensusOf(n), links, CensusBoth(r), r.links, [])
    ensures Linked(NewRootLinks(r), CensusOf(NewRoot(r)).ids)
    ensures NewRootLinks(r).innerNodes - links.innerNodes == CensusOf(NewRoot(r)).inners - CensusOf(n).inners
  {
    assert [] + CensusBoth(r).ids + [] == CensusBoth(r).ids;
    InnerApart(r.links, NewRootLinks(r), CensusBoth(r).ids);
    if r.split.Some? {
      CensusTwo(r.node, r.split.value.node);
    } else {
      PlusNone(CensusOf(r.node));
    }
  }

  lemma RootOk(n: Node, r: Result, item: Item, duplicates: bool)
    requires Ok(n) && SplitOk(n, r) && Effect(n, item, duplicates, r)
    ensures Ok(NewRoot(r)) && Items(NewRoot(r)) == All(r)
    ensures |All(r)| == |Items(n)| + (if r.added then 1 else 0)
  {
    if r.added {
      InsertedSorted(Items(n), All(r), item);
    }
    if r.split.Some? {
      NewRootOk(n, r);
    } else {
      assert All(r) == Items(r.node);
    }
  }

  lemma NewRootOk(n: Node, r: Result)
    requires SplitOk(n, r) && r.split.Some? && Sorted(All(r))
    ensures Ok(NewRoot(r)) && Items(NewRoot(r)) == All(r)
  {
    var left, right := r.node, r.split.value.node;
    ConcatTwo(left, right);
  }
}
