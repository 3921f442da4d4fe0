/** A lone inserter: with nobody else at work, every restart splits a page of a level that was not split
    before, so an insert restarts at most once a level. */
module OlcAlone {
  import opened Options
  import opened OlcNodes
  import opened Slots
  import opened OlcTree

  /** Levels of `split` have been split: the pages that answer for `k` there have room to spare.  A page
      above the old root has one key. */
  ghost predicate Spare(pages: seq<Page>, k: Key, height: nat, split: set<nat>) {
    && (forall x :: 0 <= x < |pages| && In(pages[x].range, k) && pages[x].level in split ==>
          |pages[x].body.keys| <= INNER_MAX / 2 + 1 +
            if pages[x].level > 0 && pages[x].level - 1 in split then 1 else 0)
    && (forall x :: 0 <= x < |pages| && pages[x].level > height ==> height in split && |pages[x].body.keys| == 1)
  }

  /** From the root to the first full page, or to the leaf. */
  method FindFull(pages: seq<Page>, root: nat, k: Key) returns (node: nat, parent: Option<nat>)
    requires TreeOk(pages, root)
    ensures node < |pages| && In(pages[node].range, k) && (IsFull(pages[node].body) || pages[node].body.Leaf?)
    ensures parent.None? ==> node == root
    ensures parent.Some? ==>
              var p := parent.value;
              && p < |pages| && pages[p].body.Inner? && In(pages[p].range, k) && !IsFull(pages[p].body)
              && node == ChildFor(pages[p], k)
  {
    node, parent := root, None;
    while pages[node].body.Inner? && !IsFull(pages[node].body)
      invariant node < |pages| && In(pages[node].range, k)
      invariant parent.None? ==> node == root
      invariant parent.Some? ==>
                  var p := parent.value;
                  && p < |pages| && pages[p].body.Inner? && In(pages[p].range, k) && !IsFull(pages[p].body)
                  && node == ChildFor(pages[p], k)
      decreases pages[node].level
    {
      ChildForIn(pages, root, node, k);
      parent, node := Some(node), ChildFor(pages[node], k);
    }
  }

  lemma HalfKeys(pg: Page)
    requires PageOk(pg) && IsFull(pg.body)
    ensures |LeftPage(pg).body.keys| <= INNER_MAX / 2 + 1 && |RightPage(pg).body.keys| <= INNER_MAX / 2 + 1
  {
  }

  lemma SpareBelow(pages: seq<Page>, root: nat, k: Key, height: nat, split: set<nat>, n: nat, p: nat)
    requires TreeOk(pages, root) && Spare(pages, k, height, split) && n < |pages| && IsFull(pages[n].body)
    requires In(pages[n].range, k)
    requires p < |pages| && p != n && pages[p].body.Inner? && pages[p].level == pages[n].level + 1
    ensures pages[n].level !in split && pages[n].level <= height
    ensures Spare(SplitBelow(pages, n, p), k, height, split + {pages[n].level})
  {
    HalfKeys(pages[n]);
    HalvesInRange(pages[n], k);
  }

  lemma SpareRoot(pages: seq<Page>, root: nat, k: Key, height: nat, split: set<nat>)
    requires TreeOk(pages, root) && Spare(pages, k, height, split) && IsFull(pages[root].body)
    requires pages[root].level >= height
    ensures pages[root].level !in split && pages[root].level == height
    ensures Spare(SplitRoot(pages, root), k, height, split + {pages[root].level})
  {
    HalfKeys(pages[root]);
    HalvesInRange(pages[root], k);
  }

  ghost function Levels(height: nat): (r: set<nat>)
    ensures forall l: nat :: l in r <==> l <= height
    ensures |r| == height + 1
  {
    if height == 0 then {0} else Levels(height - 1) + {height}
  }

  lemma {:induction false} FewLevels(split: set<nat>, levels: set<nat>)
    requires split <= levels
    ensures |split| <= |levels|
  {
    if split != {} {
      var l :| l in split;
      FewLevels(split - {l}, levels - {l});
    }
  }

  lemma SplitLinks(pages: seq<Page>, root: nat, n: nat, p: nat, k: Key)
    requires TreeOk(pages, root) && p < |pages| && pages[p].body.Inner? && !IsFull(pages[p].body)
    requires In(pages[p].range, k)
    requires n == ChildFor(pages[p], k) && n < |pages| && IsFull(pages[n].body)
    ensures n != p && pages[p].level == pages[n].level + 1 && TreeOk(SplitBelow(pages, n, p), root)
  {
    SplitCuts(pages, root, n, p, Lower(pages[p].body.keys, k));
    SplitBelowOk(pages, root, n, p, Lower(pages[p].body.keys, k));
  }

  ghost predicate Inserting(pages: seq<Page>, root: nat, k: Key, m: map<Key, Val>, height: nat, split: set<nat>) {
    && TreeOk(pages, root) && Agrees(pages, m) && pages[root].level >= height
    && Spare(pages, k, height, split)
  }

  /** Splits a full page on the way to the key, of a level that was not split before. */
  method SplitFull(pages: seq<Page>, root: nat, node: nat, parent: Option<nat>, ghost k: Key, ghost m: map<Key, Val>,
                   ghost height: nat, ghost split: set<nat>)
    returns (more: seq<Page>, top: nat)
    requires Inserting(pages, root, k, m, height, split)
    requires node < |pages| && In(pages[node].range, k) && IsFull(pages[node].body)
    requires parent.None? ==> node == root
    requires parent.Some? ==>
               var p := parent.value;
               && p < |pages| && pages[p].body.Inner? && In(pages[p].range, k) && !IsFull(pages[p].body)
               && node == ChildFor(pages[p], k)
    ensures pages[node].level !in split && pages[node].level <= height
    ensures Inserting(more, top, k, m, height, split + {pages[node].level})
  {
    if parent.Some? {
      SplitLinks(pages, root, node, parent.value, k);
      SpareBelow(pages, root, k, height, split, node, parent.value);
      SplitAgrees(pages, node, SplitBelow(pages, node, parent.value), m);
      more, top := SplitBelow(pages, node, parent.value), root;
    } else {
      SplitRootOk(pages, root);
      SpareRoot(pages, root, k, height, split);
      SplitAgrees(pages, node, SplitRoot(pages, node), m);
      more, top := SplitRoot(pages, node), |pages| + 1;
    }
  }

  lemma OneLevelLess(height: nat, split: set<nat>, level: nat)
    requires level <= height && level !in split
    ensures |Levels(height) - (split + {level})| < |Levels(height) - split|
  {
    assert Levels(height) - split == (Levels(height) - (split + {level})) + {level};
  }

  /** Inserts a pair, restarting after each split. */
  method InsertAlone(pages: seq<Page>, root: nat, k: Key, v: Val, ghost m: map<Key, Val>)
    returns (more: seq<Page>, top: nat, restarts: nat)
    requires TreeOk(pages, root) && Agrees(pages, m)
    ensures TreeOk(more, top) && Agrees(more, m[k := v])
    ensures restarts <= pages[root].level + 1
  {
    more, top, restarts := pages, root, 0;
    ghost var height, split := pages[root].level, {};
    while true
      invariant Inserting(more, top, k, m, height, split)
      invariant split <= Levels(height) && restarts == |split|
      decreases |Levels(height) - split|
    {
      var node, parent := FindFull(more, top, k);
      if !IsFull(more[node].body) {
        StoreOk(more, top, node, k, v, m);
        more := Stored(more, node, k, v);
        FewLevels(split, Levels(height));
        return;
      }
      ghost var level := more[node].level;
      more, top := SplitFull(more, top, node, parent, k, m, height, split);
      OneLevelLess(height, split, level);
      split := split + {level};
      restarts := restarts + 1;
    }
  }
}
