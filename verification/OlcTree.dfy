/** The pages as a tree: every page answers for a range of keys, and an inner page divides its range among
    its children. */
module OlcTree {
  import opened Options
  import opened OlcNodes
  import opened Slots

  /** The keys above `lo` and up to `hi`. */
  datatype Range = Range(lo: Option<Key>, hi: Option<Key>)

  /** `level` and `range` are not stored in a page; they say where in the tree it stands. */
  datatype Page = Page(level: nat, range: Range, body: Body)

  const FULL := Range(None, None)

  predicate In(r: Range, k: Key) {
    (r.lo.Some? ==> r.lo.value < k) && (r.hi.Some? ==> k <= r.hi.value)
  }

  predicate NonEmpty(r: Range) {
    r.lo.Some? && r.hi.Some? ==> r.lo.value < r.hi.value
  }

  ghost predicate Apart(a: Range, b: Range) {
    forall k :: !(In(a, k) && In(b, k))
  }

  /** The range that an inner page gives to its child `i`. */
  function Slot(pg: Page, i: nat): Range
    requires i <= |pg.body.keys|
  {
    Range(if i == 0 then pg.range.lo else Some(pg.body.keys[i - 1]),
          if i < |pg.body.keys| then Some(pg.body.keys[i]) else pg.range.hi)
  }

  ghost predicate Inside(keys: seq<Key>, r: Range) {
    forall i :: 0 <= i < |keys| ==> In(r, keys[i])
  }

  ghost predicate PageOk(pg: Page) {
    && NonEmpty(pg.range) && Ascending(pg.body.keys) && Inside(pg.body.keys, pg.range)
    && match pg.body
       case Leaf(keys, vals) => pg.level == 0 && |keys| == |vals| <= LEAF_MAX
       case Inner(keys, children) =>
         && pg.level > 0 && 1 <= |keys| <= INNER_MAX - 1 && |children| == |keys| + 1
         && (pg.range.hi.Some? ==> keys[|keys| - 1] < pg.range.hi.value)
  }

  ghost predicate ChildOk(pages: seq<Page>, pg: Page, i: nat)
    requires pg.body.Inner? && i < |pg.body.children| == |pg.body.keys| + 1
  {
    var c := pg.body.children[i];
    c < |pages| && pages[c].level + 1 == pg.level && pages[c].range == Slot(pg, i)
  }

  ghost predicate ChildrenOk(pages: seq<Page>, pg: Page) {
    pg.body.Inner? ==>
      && |pg.body.children| == |pg.body.keys| + 1
      && forall i :: 0 <= i < |pg.body.children| ==> ChildOk(pages, pg, i)
  }

  ghost predicate LevelsApart(pages: seq<Page>) {
    forall x, y :: 0 <= x < y < |pages| && pages[x].level == pages[y].level ==> Apart(pages[x].range, pages[y].range)
  }

  ghost predicate TreeOk(pages: seq<Page>, root: nat) {
    && root < |pages| && pages[root].range == FULL
    && (forall x :: 0 <= x < |pages| ==> PageOk(pages[x]) && pages[x].level <= pages[root].level)
    && (forall x :: 0 <= x < |pages| ==> ChildrenOk(pages, pages[x]))
    && LevelsApart(pages)
  }

  function ChildFor(pg: Page, k: Key): nat
    requires pg.body.Inner? && |pg.body.children| == |pg.body.keys| + 1
  {
    pg.body.children[Lower(pg.body.keys, k)]
  }

  /** The child an inner page names for a key of its range is one that answers for the key. */
  lemma ChildForIn(pages: seq<Page>, root: nat, p: nat, k: Key)
    requires TreeOk(pages, root) && p < |pages| && pages[p].body.Inner? && In(pages[p].range, k)
    ensures ChildFor(pages[p], k) < |pages| && In(pages[ChildFor(pages[p], k)].range, k)
    ensures pages[ChildFor(pages[p], k)].level < pages[p].level
    ensures pages[ChildFor(pages[p], k)].range == Slot(pages[p], Lower(pages[p].body.keys, k))
  {
    var i := Lower(pages[p].body.keys, k);
    LowerAt(pages[p].body.keys, k);
    assert ChildrenOk(pages, pages[p]) && ChildOk(pages, pages[p], i);
  }

  /** Every key has its leaf. */
  lemma {:induction false} LeafFor(pages: seq<Page>, root: nat, p: nat, k: Key) returns (leaf: nat)
    requires TreeOk(pages, root) && p < |pages| && In(pages[p].range, k)
    ensures leaf < |pages| && pages[leaf].body.Leaf? && In(pages[leaf].range, k)
    decreases pages[p].level
  {
    if pages[p].body.Leaf? {
      leaf := p;
    } else {
      ChildForIn(pages, root, p, k);
      leaf := LeafFor(pages, root, ChildFor(pages[p], k), k);
    }
  }

  // ---- Slots ----

  function Witness(r: Range): (k: Key)
    requires NonEmpty(r)
    ensures In(r, k)
  {
    if r.hi.Some? then r.hi.value else if r.lo.Some? then r.lo.value + 1 else 0
  }

  lemma SlotInside(pg: Page, i: nat, k: Key)
    requires PageOk(pg) && pg.body.Inner? && i <= |pg.body.keys| && In(Slot(pg, i), k)
    ensures In(pg.range, k)
  {
    if i > 0 {
      assert In(pg.range, pg.body.keys[i - 1]);
    }
    if i < |pg.body.keys| {
      assert In(pg.range, pg.body.keys[i]);
    }
  }

  lemma SlotNonEmpty(pg: Page, i: nat)
    requires PageOk(pg) && pg.body.Inner? && i <= |pg.body.keys|
    ensures NonEmpty(Slot(pg, i))
  {
    if i < |pg.body.keys| {
      assert In(pg.range, pg.body.keys[i]);
    }
  }

  lemma SlotOf(pg: Page, i: nat, k: Key)
    requires PageOk(pg) && pg.body.Inner? && i <= |pg.body.keys| && In(Slot(pg, i), k)
    ensures Lower(pg.body.keys, k) == i
  {
    LowerIs(pg.body.keys, k, i);
  }

  /** A page is the child of one page only, and once. */
  lemma OnlyParent(pages: seq<Page>, root: nat, p: nat, i: nat, q: nat, j: nat)
    requires TreeOk(pages, root) && p < |pages| && q < |pages| && pages[p].body.Inner? && pages[q].body.Inner?
    requires i < |pages[p].body.children| && j < |pages[q].body.children|
    requires pages[p].body.children[i] == pages[q].body.children[j]
    ensures p == q && i == j
  {
    assert ChildrenOk(pages, pages[p]) && ChildrenOk(pages, pages[q]);
    assert ChildOk(pages, pages[p], i) && ChildOk(pages, pages[q], j);
    SlotNonEmpty(pages[p], i);
    var k := Witness(Slot(pages[p], i));
    SlotInside(pages[p], i, k);
    SlotInside(pages[q], j, k);
    assert p != q ==> Apart(pages[if p < q then p else q].range, pages[if p < q then q else p].range);
    SlotOf(pages[p], i, k);
    SlotOf(pages[q], j, k);
  }

  lemma RootNoChild(pages: seq<Page>, root: nat, q: nat, j: nat)
    requires TreeOk(pages, root) && q < |pages| && pages[q].body.Inner? && j < |pages[q].body.children|
    ensures pages[q].body.children[j] != root
  {
    assert ChildrenOk(pages, pages[q]) && ChildOk(pages, pages[q], j);
  }

  // ---- Splitting a page ----

  function LeftPage(pg: Page): Page
    requires PageOk(pg) && IsFull(pg.body)
  {
    Page(pg.level, Range(pg.range.lo, Some(Halve(pg.body).sep)), Halve(pg.body).left)
  }

  function RightPage(pg: Page): Page
    requires PageOk(pg) && IsFull(pg.body)
  {
    Page(pg.level, Range(Some(Halve(pg.body).sep), pg.range.hi), Halve(pg.body).right)
  }

  lemma HalvesInRange(pg: Page, k: Key)
    requires PageOk(pg) && IsFull(pg.body)
    ensures In(pg.range, k) <==> In(LeftPage(pg).range, k) || In(RightPage(pg).range, k)
    ensures !(In(LeftPage(pg).range, k) && In(RightPage(pg).range, k))
  {
    assert In(pg.range, pg.body.keys[|pg.body.keys| / 2 - 1]);
    SepBelow(pg);
  }

  /** The separator lies inside the range of the page, below its upper end. */
  lemma SepBelow(pg: Page)
    requires PageOk(pg) && IsFull(pg.body)
    ensures In(pg.range, Halve(pg.body).sep)
    ensures pg.range.hi.Some? ==> Halve(pg.body).sep < pg.range.hi.value
  {
    var n := |pg.body.keys| / 2;
    assert In(pg.range, pg.body.keys[n - 1]) && In(pg.range, pg.body.keys[n]);
    assert pg.body.keys[n - 1] < pg.body.keys[n];
  }

  lemma HalfPagesOk(pg: Page)
    requires PageOk(pg) && IsFull(pg.body)
    ensures PageOk(LeftPage(pg)) && PageOk(RightPage(pg))
  {
    SepBelow(pg);
    var n := |pg.body.keys| / 2;
    var left, right := LeftPage(pg).body.keys, RightPage(pg).body.keys;
    forall i | 0 <= i < |left| ensures In(LeftPage(pg).range, left[i]) {
      assert left[i] == pg.body.keys[i] && In(pg.range, pg.body.keys[i]);
    }
    forall i | 0 <= i < |right| ensures In(RightPage(pg).range, right[i]) {
      assert right[i] == pg.body.keys[n + i] && In(pg.range, pg.body.keys[n + i]);
    }
  }

  lemma HalfSlots(pg: Page)
    requires PageOk(pg) && IsFull(pg.body) && pg.body.Inner?
    ensures forall i :: 0 <= i < |LeftPage(pg).body.children| ==>
              LeftPage(pg).body.children[i] == pg.body.children[i] && Slot(LeftPage(pg), i) == Slot(pg, i)
    ensures forall i :: 0 <= i < |RightPage(pg).body.children| ==>
              RightPage(pg).body.children[i] == pg.body.children[|pg.body.keys| / 2 + i]
              && Slot(RightPage(pg), i) == Slot(pg, |pg.body.keys| / 2 + i)
  {
  }

  /** A parent that takes up a separator and a new child. */
  function Grown(pg: Page, sep: Key, child: nat): Page
    requires pg.body.Inner? && |pg.body.children| == |pg.body.keys| + 1
  {
    pg.(body := InnerInsert(pg.body, sep, child))
  }

  /** `sep` lies strictly inside slot `i`. */
  ghost predicate Cuts(pg: Page, i: nat, sep: Key)
    requires i <= |pg.body.keys|
  {
    In(Slot(pg, i), sep) && (Slot(pg, i).hi.Some? ==> sep < Slot(pg, i).hi.value)
  }

  lemma GrownOk(pg: Page, i: nat, sep: Key, child: nat)
    requires PageOk(pg) && pg.body.Inner? && !IsFull(pg.body) && i <= |pg.body.keys| && Cuts(pg, i, sep)
    ensures PageOk(Grown(pg, sep, child))
  {
    SlotOf(pg, i, sep);
    SlotInside(pg, i, sep);
    Ascends(pg.body.keys, i, sep);
    var keys := InsertAt(pg.body.keys, i, sep);
    forall j | 0 <= j < |keys| ensures In(pg.range, keys[j]) {
      assert j != i ==> keys[j] == pg.body.keys[if j < i then j else j - 1];
    }
  }

  lemma GrownSlot(pg: Page, i: nat, sep: Key, child: nat, j: nat)
    requires PageOk(pg) && pg.body.Inner? && i <= |pg.body.keys| && Cuts(pg, i, sep)
    requires j < |Grown(pg, sep, child).body.children|
    ensures var c := Grown(pg, sep, child).body.children[j];
            if j == i + 1 then c == child else c == pg.body.children[if j <= i then j else j - 1]
    ensures Slot(Grown(pg, sep, child), j) == if j < i then Slot(pg, j)
                                              else if j == i then Range(Slot(pg, i).lo, Some(sep))
                                              else if j == i + 1 then Range(Some(sep), Slot(pg, i).hi)
                                              else Slot(pg, j - 1)
  {
    SlotOf(pg, i, sep);
  }

  // ---- The tree after a split ----

  /** Page `n` is halved into itself and a new page. */
  function Halved(pages: seq<Page>, n: nat): seq<Page>
    requires n < |pages| && PageOk(pages[n]) && IsFull(pages[n].body)
  {
    pages[n := LeftPage(pages[n])] + [RightPage(pages[n])]
  }

  /** The new page is linked below the parent `p`. */
  function SplitBelow(pages: seq<Page>, n: nat, p: nat): seq<Page>
    requires n < |pages| && PageOk(pages[n]) && IsFull(pages[n].body)
    requires p < |pages| && p != n && pages[p].body.Inner? && |pages[p].body.children| == |pages[p].body.keys| + 1
  {
    Halved(pages, n)[p := Grown(pages[p], Halve(pages[n].body).sep, |pages|)]
  }

  function NewRoot(pages: seq<Page>, n: nat): Page
    requires n < |pages| && PageOk(pages[n]) && IsFull(pages[n].body)
  {
    Page(pages[n].level + 1, FULL, Inner([Halve(pages[n].body).sep], [n, |pages|]))
  }

  /** The new page and the old one become the children of a new root. */
  function SplitRoot(pages: seq<Page>, n: nat): seq<Page>
    requires n < |pages| && PageOk(pages[n]) && IsFull(pages[n].body)
  {
    Halved(pages, n) + [NewRoot(pages, n)]
  }

  lemma HalvedApart(pages: seq<Page>, n: nat)
    requires n < |pages| && PageOk(pages[n]) && IsFull(pages[n].body) && LevelsApart(pages)
    ensures LevelsApart(Halved(pages, n))
  {
    var more := Halved(pages, n);
    forall x, y | 0 <= x < y < |more| && more[x].level == more[y].level ensures Apart(more[x].range, more[y].range) {
      var x', y' := x, if y == |pages| then n else y;
      forall k ensures !(In(more[x].range, k) && In(more[y].range, k)) {
        HalvesInRange(pages[n], k);
        if x' < y' {
          assert Apart(pages[x'].range, pages[y'].range);
        } else if y' < x' {
          assert Apart(pages[y'].range, pages[x'].range);
        }
      }
    }
  }

  /** A page whose children are all untouched keeps them. */
  lemma ChildrenKept(pages: seq<Page>, more: seq<Page>, pg: Page)
    requires ChildrenOk(pages, pg) && |more| >= |pages|
    requires pg.body.Inner? ==> forall i :: 0 <= i < |pg.body.children| && pg.body.children[i] < |pages| ==>
                                  var c := pg.body.children[i];
                                  more[c].level == pages[c].level && more[c].range == pages[c].range
    ensures ChildrenOk(more, pg)
  {
    if pg.body.Inner? {
      forall i | 0 <= i < |pg.body.children| ensures ChildOk(more, pg, i) {
        assert ChildOk(pages, pg, i);
      }
    }
  }

  /** The halves of an inner page share its children between them. */
  lemma HalvesChildren(pages: seq<Page>, more: seq<Page>, pg: Page)
    requires PageOk(pg) && IsFull(pg.body) && ChildrenOk(more, pg)
    ensures ChildrenOk(more, LeftPage(pg)) && ChildrenOk(more, RightPage(pg))
  {
    if pg.body.Inner? {
      HalfSlots(pg);
      var n := |pg.body.keys| / 2;
      forall i | 0 <= i < |LeftPage(pg).body.children| ensures ChildOk(more, LeftPage(pg), i) {
        assert ChildOk(more, pg, i);
      }
      forall i | 0 <= i < |RightPage(pg).body.children| ensures ChildOk(more, RightPage(pg), i) {
        assert ChildOk(more, pg, n + i);
      }
    }
  }

  /** `n` is child `i` of `p`, is full, and `p` has room. */
  ghost predicate CanSplit(pages: seq<Page>, n: nat, p: nat, i: nat) {
    && n < |pages| && IsFull(pages[n].body)
    && p < |pages| && pages[p].body.Inner? && !IsFull(pages[p].body)
    && i < |pages[p].body.children| && pages[p].body.children[i] == n
  }

  lemma SplitCuts(pages: seq<Page>, root: nat, n: nat, p: nat, i: nat)
    requires TreeOk(pages, root) && CanSplit(pages, n, p, i)
    ensures n != p && n != root && i <= |pages[p].body.keys| && Cuts(pages[p], i, Halve(pages[n].body).sep)
    ensures pages[n].range == Slot(pages[p], i) && pages[n].level + 1 == pages[p].level
  {
    assert ChildrenOk(pages, pages[p]) && ChildOk(pages, pages[p], i);
    RootNoChild(pages, root, p, i);
    SepBelow(pages[n]);
  }

  /** Pages other than the parent do not have the split page as a child. */
  lemma OthersKeep(pages: seq<Page>, root: nat, n: nat, p: nat, i: nat, x: nat)
    requires TreeOk(pages, root) && CanSplit(pages, n, p, i) && n != p && x < |pages| && x != p
    ensures ChildrenOk(SplitBelow(pages, n, p), pages[x])
  {
    var more := SplitBelow(pages, n, p);
    assert ChildrenOk(pages, pages[x]);
    if pages[x].body.Inner? {
      forall j | 0 <= j < |pages[x].body.children| && pages[x].body.children[j] < |pages|
        ensures var c := pages[x].body.children[j]; more[c].level == pages[c].level && more[c].range == pages[c].range
      {
        if pages[x].body.children[j] == n {
          OnlyParent(pages, root, p, i, x, j);
        }
      }
    }
    ChildrenKept(pages, more, pages[x]);
  }

  lemma ParentTakesUp(pages: seq<Page>, root: nat, n: nat, p: nat, i: nat)
    requires TreeOk(pages, root) && CanSplit(pages, n, p, i) && n != p
    ensures ChildrenOk(SplitBelow(pages, n, p), Grown(pages[p], Halve(pages[n].body).sep, |pages|))
  {
    SplitCuts(pages, root, n, p, i);
    var more, sep := SplitBelow(pages, n, p), Halve(pages[n].body).sep;
    var g := Grown(pages[p], sep, |pages|);
    assert ChildrenOk(pages, pages[p]);
    forall j | 0 <= j < |g.body.children| ensures ChildOk(more, g, j) {
      GrownSlot(pages[p], i, sep, |pages|, j);
      if j != i && j != i + 1 {
        var j' := if j <= i then j else j - 1;
        assert ChildOk(pages, pages[p], j');
        if pages[p].body.children[j'] == n {
          OnlyParent(pages, root, p, i, p, j');
        }
      }
    }
  }

  /** A split below a parent keeps the tree in order. */
  lemma SplitBelowOk(pages: seq<Page>, root: nat, n: nat, p: nat, i: nat)
    requires TreeOk(pages, root) && CanSplit(pages, n, p, i)
    ensures n != p && TreeOk(SplitBelow(pages, n, p), root)
  {
    SplitCuts(pages, root, n, p, i);
    var more, sep := SplitBelow(pages, n, p), Halve(pages[n].body).sep;
    HalfPagesOk(pages[n]);
    GrownOk(pages[p], i, sep, |pages|);
    HalvedApart(pages, n);
    BelowApart(pages, n, p);
    OthersKeep(pages, root, n, p, i, n);
    HalvesChildren(pages, more, pages[n]);
    ParentTakesUp(pages, root, n, p, i);
    forall x | 0 <= x < |more| ensures ChildrenOk(more, more[x]) {
      if x != n && x != p && x < |pages| {
        OthersKeep(pages, root, n, p, i, x);
      }
    }
  }

  lemma BelowApart(pages: seq<Page>, n: nat, p: nat)
    requires n < |pages| && PageOk(pages[n]) && IsFull(pages[n].body) && LevelsApart(Halved(pages, n))
    requires p < |pages| && p != n && pages[p].body.Inner? && |pages[p].body.children| == |pages[p].body.keys| + 1
    ensures LevelsApart(SplitBelow(pages, n, p))
  {
    var half, more := Halved(pages, n), SplitBelow(pages, n, p);
    assert forall x :: 0 <= x < |half| ==> more[x].level == half[x].level && more[x].range == half[x].range;
  }

  /** A split of the root puts a new root on top. */
  lemma SplitRootOk(pages: seq<Page>, root: nat)
    requires TreeOk(pages, root) && IsFull(pages[root].body)
    ensures TreeOk(SplitRoot(pages, root), |pages| + 1)
  {
    var more := SplitRoot(pages, root);
    var top := NewRoot(pages, root);
    HalfPagesOk(pages[root]);
    HalvedApart(pages, root);
    assert forall x :: 0 <= x <= |pages| ==> more[x] == Halved(pages, root)[x];
    assert ChildOk(more, top, 0) && ChildOk(more, top, 1);
    forall x | 0 <= x < |pages| ensures ChildrenOk(more, pages[x]) {
      if pages[x].body.Inner? {
        forall j | 0 <= j < |pages[x].body.children| ensures pages[x].body.children[j] != root {
          RootNoChild(pages, root, x, j);
        }
      }
      ChildrenKept(pages, more, pages[x]);
    }
    HalvesChildren(pages, more, pages[root]);
  }

  // ---- What the leaves hold ----

  function MapGet(m: map<Key, Val>, k: Key): Option<Val> {
    if k in m then Some(m[k]) else None
  }

  ghost predicate LeafAgrees(pg: Page, m: map<Key, Val>) {
    pg.body.Leaf? ==>
      && |pg.body.keys| == |pg.body.vals|
      && forall k :: In(pg.range, k) ==> LeafGet(pg.body, k) == MapGet(m, k)
  }

  /** Each leaf holds what the map holds in its range. */
  ghost predicate Agrees(pages: seq<Page>, m: map<Key, Val>) {
    forall x :: 0 <= x < |pages| ==> LeafAgrees(pages[x], m)
  }

  lemma HalvesAgree(pg: Page, m: map<Key, Val>)
    requires PageOk(pg) && IsFull(pg.body) && LeafAgrees(pg, m)
    ensures LeafAgrees(LeftPage(pg), m) && LeafAgrees(RightPage(pg), m)
  {
    if pg.body.Leaf? {
      forall k ensures In(LeftPage(pg).range, k) ==> LeafGet(LeftPage(pg).body, k) == MapGet(m, k)
        ensures In(RightPage(pg).range, k) ==> LeafGet(RightPage(pg).body, k) == MapGet(m, k)
      {
        HalvesInRange(pg, k);
        HalvesGet(pg.body, k);
      }
    }
  }

  /** A split moves pairs between leaves and changes none. */
  lemma SplitAgrees(pages: seq<Page>, n: nat, more: seq<Page>, m: map<Key, Val>)
    requires n < |pages| && PageOk(pages[n]) && IsFull(pages[n].body) && Agrees(pages, m)
    requires |more| > |pages| && more[n] == LeftPage(pages[n]) && more[|pages|] == RightPage(pages[n])
    requires forall x :: 0 <= x < |pages| && x != n && pages[x].body.Leaf? ==> more[x] == pages[x]
    requires forall x :: 0 <= x < |more| && x != n && more[x].body.Leaf? ==>
        x == |pages| || (x < |pages| && pages[x].body.Leaf?)
    ensures Agrees(more, m)
  {
    HalvesAgree(pages[n], m);
  }

  function Stored(pages: seq<Page>, n: nat, k: Key, v: Val): seq<Page>
    requires n < |pages| && pages[n].body.Leaf? && |pages[n].body.keys| == |pages[n].body.vals|
  {
    pages[n := pages[n].(body := LeafInsert(pages[n].body, k, v))]
  }

  lemma StoreTree(pages: seq<Page>, root: nat, n: nat, k: Key, v: Val)
    requires TreeOk(pages, root)
    requires n < |pages| && pages[n].body.Leaf? && !IsFull(pages[n].body) && In(pages[n].range, k)
    ensures TreeOk(Stored(pages, n, k, v), root)
  {
    var more := Stored(pages, n, k, v);
    InsertOk(pages[n].body, k, v);
    assert PageOk(more[n]) by {
      forall i | 0 <= i < |more[n].body.keys| ensures In(pages[n].range, more[n].body.keys[i]) {
        assert more[n].body.keys[i] in more[n].body.keys;
      }
    }
    forall x | 0 <= x < |more| ensures ChildrenOk(more, more[x]) {
      assert ChildrenOk(pages, pages[x]);
      ChildrenKept(pages, more, pages[x]);
    }
  }

  lemma StoredAgrees(pg: Page, k: Key, v: Val, m: map<Key, Val>)
    requires LeafAgrees(pg, m) && PageOk(pg) && pg.body.Leaf?
    ensures LeafAgrees(pg.(body := LeafInsert(pg.body, k, v)), m[k := v])
  {
    InsertOk(pg.body, k, v);
    forall y ensures LeafGet(LeafInsert(pg.body, k, v), y) == if y == k then Some(v) else LeafGet(pg.body, y) {
      InsertGet(pg.body, k, v, y);
    }
  }

  /** A store into the leaf that answers for the key keeps the tree in order and is an update of the map. */
  lemma StoreOk(pages: seq<Page>, root: nat, n: nat, k: Key, v: Val, m: map<Key, Val>)
    requires TreeOk(pages, root) && Agrees(pages, m)
    requires n < |pages| && pages[n].body.Leaf? && !IsFull(pages[n].body) && In(pages[n].range, k)
    ensures TreeOk(Stored(pages, n, k, v), root) && Agrees(Stored(pages, n, k, v), m[k := v])
  {
    var more := Stored(pages, n, k, v);
    StoreTree(pages, root, n, k, v);
    StoredAgrees(pages[n], k, v, m);
    forall x | 0 <= x < |more| && x != n ensures LeafAgrees(more[x], m[k := v]) {
      assert LeafAgrees(pages[x], m);
      if pages[x].body.Leaf? {
        assert Apart(pages[if x < n then x else n].range, pages[if x < n then n else x].range);
      }
    }
  }
}
