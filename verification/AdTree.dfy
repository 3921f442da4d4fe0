/** The AD-tree of the Bayesian learner: a sparse cache of the counts of all queries over a binary data
    set.  The subtree of the most common value of each variable is left out; a count that needs it is
    the difference of two others. */
module AdTree {
  import opened Options
  import opened BayesData
  import opened RecordOrder

  datatype Node = Node(index: int, value: int, count: nat, varys: seq<Vary>)

  datatype Vary = Vary(index: nat, mostCommonValue: int, zeroNode: Option<Node>, oneNode: Option<Node>)

  // ---- What the tree caches ----

  /** How many rows match a query. */
  function Count(rows: seq<Row>, q: seq<Term>): nat {
    |Matching(rows, q)|
  }

  /** `node` caches the counts of the queries that extend `path`, whose last term is on variable
      `node.index`. */
  ghost predicate NodeOk(node: Node, rows: seq<Row>, numVar: nat, path: seq<Term>)
    decreases node, 1
  {
    && -1 <= node.index < numVar
    && node.count == Count(rows, path)
    && |node.varys| == numVar - (node.index + 1)
    && forall j :: 0 <= j < |node.varys| ==> VaryOk(node.varys[j], rows, numVar, node.index + 1 + j, path)
  }

  ghost predicate VaryOk(vary: Vary, rows: seq<Row>, numVar: nat, v: nat, path: seq<Term>)
    decreases vary, 0
  {
    var n0, n1 := Count(rows, path + [Term(v, 0)]), Count(rows, path + [Term(v, 1)]);
    && vary.index == v
    && vary.mostCommonValue == (if n0 >= n1 then 0 else 1)
    && (vary.zeroNode.Some? <==> n0 != 0 && vary.mostCommonValue != 0)
    && (vary.oneNode.Some? <==> n1 != 0 && vary.mostCommonValue != 1)
    && (vary.zeroNode.Some? ==>
          vary.zeroNode.value.index == v && vary.zeroNode.value.value == 0 &&
              NodeOk(vary.zeroNode.value, rows, numVar, path + [Term(v, 0)]))
    && (vary.oneNode.Some? ==>
          vary.oneNode.value.index == v && vary.oneNode.value.value == 1 &&
              NodeOk(vary.oneNode.value, rows, numVar, path + [Term(v, 1)]))
  }

  /** The value a node is labelled with is no part of what it caches. */
  lemma ValueIsFree(node: Node, x: int, rows: seq<Row>, numVar: nat, path: seq<Term>)
    requires NodeOk(node, rows, numVar, path)
    ensures NodeOk(node.(value := x), rows, numVar, path)
  {
  }

  // ---- Building it ----

  /** The rows `part` of the table are those that match `path`, in some order. */
  ghost predicate Covers(part: seq<Row>, rows: seq<Row>, path: seq<Term>) {
    multiset(part) == multiset(Matching(rows, path))
  }

  lemma CoversCount(part: seq<Row>, rows: seq<Row>, path: seq<Term>)
    requires Covers(part, rows, path)
    ensures |part| == Count(rows, path)
  {
    assert |multiset(part)| == |part|;
    assert |multiset(Matching(rows, path))| == |Matching(rows, path)|;
  }

  /** Splitting a range that is sorted by column `v`: the first `n` rows have 0 there, the others 1. */
  lemma SplitCovers(part: seq<Row>, n: nat, rows: seq<Row>, numVar: nat, path: seq<Term>, v: nat)
    requires AllRows(part, numVar) && Sorted(part, numVar, v) && n <= |part| && v < numVar
    requires Covers(part, rows, path)
    requires forall i :: 0 <= i < n ==> part[i][v] == 0
    requires forall i :: n <= i < |part| ==> part[i][v] == 1
    ensures Covers(part[..n], rows, path + [Term(v, 0)]) && Covers(part[n..], rows, path + [Term(v, 1)])
    ensures AllRows(part[..n], numVar) && Sorted(part[..n], numVar, v + 1)
    ensures AllRows(part[n..], numVar) && Sorted(part[n..], numVar, v + 1)
  {
    var low, high := part[..n], part[n..];
    assert part == low + high;
    forall r
      ensures multiset(low)[r] == if Agrees(r, Term(v, 0)) then multiset(part)[r] else 0
      ensures multiset(high)[r] == if Agrees(r, Term(v, 1)) then multiset(part)[r] else 0
    {
      assert r in multiset(low) ==> r in low;
      assert r in multiset(high) ==> r in high;
    }
    MatchingMore(rows, path, Term(v, 0), low, part);
    MatchingMore(rows, path, Term(v, 1), high, part);
    forall i, j | 0 <= i < j < |low| ensures LexLe(low[i], low[j], v + 1) {
      assert LexLe(part[i], part[j], v);
    }
    forall i, j | 0 <= i < j < |high| ensures LexLe(high[i], high[j], v + 1) {
      assert LexLe(part[n + i], part[n + j], v);
    }
  }

  /** The `num` rows from `start` are only rearranged, and the rest of the table is as it was. */
  ghost predicate Rearranged(before: seq<Row>, after: seq<Row>, start: nat, num: nat) {
    && |after| == |before| && start + num <= |after|
    && after[..start] == before[..start]
    && after[start + num..] == before[start + num..]
    && multiset(after[start..start + num]) == multiset(before[start..start + num])
  }

  lemma RearrangedTwice(a: seq<Row>, b: seq<Row>, c: seq<Row>, start: nat, num: nat)
    requires Rearranged(a, b, start, num) && Rearranged(b, c, start, num)
    ensures Rearranged(a, c, start, num)
  {
  }

  /** Rearranging part of a range rearranges the range. */
  lemma RearrangedPart(a: seq<Row>, b: seq<Row>, start: nat, num: nat, from: nat, count: nat)
    requires Rearranged(a, b, from, count) && start <= from && from + count <= start + num <= |a|
    ensures Rearranged(a, b, start, num)
    ensures b[start..from] == a[start..from] && b[from + count..start + num] == a[from + count..start + num]
  {
    assert b[start..from] == b[..from][start..] == a[..from][start..] == a[start..from];
    var end := start + num - (from + count);
    assert b[from + count..start + num] == b[from + count..][..end] == a[from + count..][..end] ==
        a[from + count..start + num];
    assert a[start..start + num] == a[start..from] + a[from..from + count] + a[from + count..start + num];
    assert b[start..start + num] == b[start..from] + b[from..from + count] + b[from + count..start + num];
    assert b[..start] == b[..from][..start] == a[..from][..start] == a[..start];
    assert b[start + num..] == b[from + count..][end..] == a[from + count..][end..] == a[start + num..];
  }

  lemma RearrangedThen(a: seq<Row>, b: seq<Row>, c: seq<Row>, start: nat, num: nat, from: nat, count: nat)
    requires Rearranged(a, b, start, num) && Rearranged(b, c, from, count)
    requires start <= from && from + count <= start + num <= |a|
    ensures Rearranged(a, c, start, num)
  {
    RearrangedPart(b, c, start, num, from, count);
    RearrangedTwice(a, b, c, start, num);
  }

  /** The range is put in order by column `index`, unless its parent left it so, and split there. */
  method SortAndSplit(parentIndex: int, index: nat, start: nat, num: nat, data: Data, ghost rows: seq<Row>,
                      ghost path: seq<Term>)
    returns (num0: nat)
    requires data.Valid() && start + num <= |data.rows| && index < data.numVar
    requires Covers(data.rows[start..start + num], rows, path)
    requires parentIndex + 1 == index ==> Sorted(data.rows[start..start + num], data.numVar, index)
    modifies data
    ensures data.Valid() && Rearranged(old(data.rows), data.rows, start, num) && num0 <= num
    ensures Half(data.rows[start..start + num0], data.numVar, rows, path + [Term(index, 0)], index)
    ensures Half(data.rows[start + num0..start + num], data.numVar, rows, path + [Term(index, 1)], index)
  {
    if parentIndex + 1 != index && num > 1 {
      data.Sort(start, num, index);
    }
    num0 := data.FindSplit(start, num, index);
    Split(data.rows, start, num, num0, rows, data.numVar, path, index);
  }

  /** `part` holds the rows that match `path`, in order after column `v`. */
  ghost predicate Half(part: seq<Row>, numVar: nat, rows: seq<Row>, path: seq<Term>, v: nat) {
    AllRows(part, numVar) && Covers(part, rows, path) && Sorted(part, numVar, v + 1) && |part| == Count(rows, path)
  }

  method MakeVary(parentIndex: int, index: nat, start: nat, num: nat, data: Data, ghost rows: seq<Row>,
                  ghost path: seq<Term>)
    returns (vary: Vary)
    requires data.Valid() && start + num <= |data.rows| && index < data.numVar
    requires Covers(data.rows[start..start + num], rows, path)
    requires parentIndex + 1 == index ==> Sorted(data.rows[start..start + num], data.numVar, index)
    modifies data
    ensures data.Valid() && Rearranged(old(data.rows), data.rows, start, num)
    ensures VaryOk(vary, rows, data.numVar, index, path)
    decreases data.numVar - index, 2
  {
    var num0 := SortAndSplit(parentIndex, index, start, num, data, rows, path);
    var num1 := num - num0;
    ghost var sorted := data.rows;
    var mostCommonValue := if num0 >= num1 then 0 else 1;
    var zeroNode, oneNode := None, None;
    if !(num0 == 0 || mostCommonValue == 0) {
      var node := MakeValue(index, 0, start, num0, data, rows, path);
      zeroNode := Some(node);
      RearrangedThen(old(data.rows), sorted, data.rows, start, num, start, num0);
    }
    if !(num1 == 0 || mostCommonValue == 1) {
      var node := MakeValue(index, 1, start + num0, num1, data, rows, path);
      oneNode := Some(node);
      RearrangedThen(old(data.rows), sorted, data.rows, start, num, start + num0, num1);
    }
    vary := Vary(index, mostCommonValue, zeroNode, oneNode);
  }

  /** The node of one value of a variable. */
  method MakeValue(index: nat, value: int, start: nat, num: nat, data: Data, ghost rows: seq<Row>,
                   ghost path: seq<Term>)
    returns (node: Node)
    requires data.Valid() && start + num <= |data.rows| && index < data.numVar
    requires Half(data.rows[start..start + num], data.numVar, rows, path + [Term(index, value)], index)
    modifies data
    ensures data.Valid() && Rearranged(old(data.rows), data.rows, start, num)
    ensures NodeOk(node, rows, data.numVar, path + [Term(index, value)]) && node.index == index && node.value == value
    decreases data.numVar - index, 1
  {
    var made := MakeNode(index, index, start, num, data, rows, path + [Term(index, value)]);
    ValueIsFree(made, value, rows, data.numVar, path + [Term(index, value)]);
    node := made.(value := value);
  }

  lemma Split(table: seq<Row>, start: nat, num: nat, n: nat, rows: seq<Row>, numVar: nat, path: seq<Term>, v: nat)
    requires AllRows(table, numVar) && start + num <= |table| && n <= num && v < numVar
    requires Sorted(table[start..start + num], numVar, v) && Covers(table[start..start + num], rows, path)
    requires forall i :: start <= i < start + n ==> table[i][v] == 0
    requires forall i :: start + n <= i < start + num ==> table[i][v] == 1
    ensures Covers(table[start..start + n], rows, path + [Term(v, 0)]) && n == Count(rows, path + [Term(v, 0)])
    ensures Covers(table[start + n..start + num], rows, path + [Term(v, 1)])
    ensures num - n == Count(rows, path + [Term(v, 1)])
    ensures Sorted(table[start..start + n], numVar, v + 1) && Sorted(table[start + n..start + num], numVar, v + 1)
  {
    var part := table[start..start + num];
    SplitCovers(part, n, rows, numVar, path, v);
    assert table[start..start + n] == part[..n] && table[start + n..start + num] == part[n..];
    CoversCount(part[..n], rows, path + [Term(v, 0)]);
    CoversCount(part[n..], rows, path + [Term(v, 1)]);
  }

  method MakeNode(parentIndex: int, index: int, start: nat, num: nat, data: Data, ghost rows: seq<Row>,
                  ghost path: seq<Term>)
    returns (node: Node)
    requires data.Valid() && start + num <= |data.rows| && -1 <= index < data.numVar && parentIndex == index
    requires Covers(data.rows[start..start + num], rows, path)
    requires Sorted(data.rows[start..start + num], data.numVar, index + 1)
    modifies data
    ensures data.Valid() && Rearranged(old(data.rows), data.rows, start, num)
    ensures NodeOk(node, rows, data.numVar, path) && node.index == index
    decreases data.numVar - index, 0
  {
    CoversCount(data.rows[start..start + num], rows, path);
    var varys: seq<Vary> := [];
    var v := index + 1;
    while v < data.numVar
      invariant index + 1 <= v <= data.numVar && |varys| == v - (index + 1)
      invariant data.Valid() && Rearranged(old(data.rows), data.rows, start, num)
      invariant v == index + 1 ==> data.rows == old(data.rows)
      invariant forall j :: 0 <= j < |varys| ==> VaryOk(varys[j], rows, data.numVar, index + 1 + j, path)
    {
      ghost var before := data.rows;
      var vary := MakeVary(parentIndex, v, start, num, data, rows, path);
      RearrangedTwice(old(data.rows), before, data.rows, start, num);
      varys := varys + [vary];
      v := v + 1;
    }
    node := Node(index, -1, num, varys);
  }

  /** The tree of a data set: its root caches the counts of all queries. */
  method MakeTree(data: Data) returns (root: Node)
    requires data.Valid()
    modifies data
    ensures data.Valid() && multiset(data.rows) == old(multiset(data.rows))
    ensures NodeOk(root, old(data.rows), data.numVar, []) && root.index == -1
  {
    ghost var rows := data.rows;
    var n := |data.rows|;
    data.Sort(0, n, 0);
    assert rows[0..n] == rows && data.rows[0..n] == data.rows;
    assert Covers(data.rows[0..n], rows, []) by {
      forall r ensures multiset(data.rows)[r] == multiset(Matching(rows, []))[r] {
        MatchingCount(rows, [], r);
      }
    }
    root := MakeNode(-1, -1, 0, n, data, rows, []);
    assert data.rows[0..n] == data.rows;
  }

  // ---- Querying it ----

  /** A term of a query whose value may be changed in place. */
  class Query {
    const index: nat
    var value: int

    constructor (index: nat, value: int)
      ensures this.index == index && this.value == value
    {
      this.index := index;
      this.value := value;
    }
  }

  /** The query as it stands. */
  function Terms(queries: seq<Query>): seq<Term>
    reads queries
  {
    seq(|queries|, i requires 0 <= i < |queries| reads queries => Term(queries[i].index, queries[i].value))
  }

  /** The terms are sorted by index, on variables the data has, and ask for 0 or 1. */
  ghost predicate Ordered(q: seq<Term>, numVar: nat) {
    && (forall i :: 0 <= i < |q| ==> q[i].index < numVar && (q[i].value == 0 || q[i].value == 1))
    && (forall i, j :: 0 <= i < j < |q| ==> q[i].index < q[j].index)
  }

  /** The query without its term `k`, and with its term `k` asking for the other value. */
  ghost function Without(q: seq<Term>, k: nat): seq<Term>
    requires k < |q|
  {
    q[..k] + q[k + 1..]
  }

  ghost function Flipped(q: seq<Term>, k: nat): seq<Term>
    requires k < |q|
  {
    q[k := Term(q[k].index, 1 - q[k].value)]
  }

  // ---- Counting identities ----

  /** Every row that matches the query without term `k` matches exactly one of its two completions. */
  lemma {:induction false} CountSplits(rows: seq<Row>, numVar: nat, q: seq<Term>, k: nat)
    requires AllRows(rows, numVar) && k < |q| && Ordered(q, numVar)
    ensures Count(rows, Without(q, k)) == Count(rows, q) + Count(rows, Flipped(q, k))
  {
    if rows != [] {
      var n := |rows| - 1;
      CountSplits(rows[..n], numVar, q, k);
      RowSplits(rows[n], numVar, q, k);
    }
  }

  lemma RowSplits(r: Row, numVar: nat, q: seq<Term>, k: nat)
    requires IsRow(r, numVar) && k < |q| && Ordered(q, numVar)
    ensures Matches(r, Without(q, k)) == (Matches(r, q) || Matches(r, Flipped(q, k)))
    ensures !(Matches(r, q) && Matches(r, Flipped(q, k)))
  {
    var sup, inv := Without(q, k), Flipped(q, k);
    if Matches(r, sup) {
      forall i | 0 <= i < |q| && i != k ensures Agrees(r, q[i]) {
        assert q[i] == sup[if i < k then i else i - 1];
      }
      assert r[q[k].index] == q[k].value ==> Matches(r, q);
      assert r[q[k].index] == 1 - q[k].value ==> Matches(r, inv);
    }
    if Matches(r, q) || Matches(r, inv) {
      forall i | 0 <= i < |sup| ensures Agrees(r, sup[i]) {
        assert sup[i] == q[if i < k then i else i + 1] == inv[if i < k then i else i + 1];
      }
    }
    assert Matches(r, q) ==> Agrees(r, q[k]);
    assert Matches(r, inv) ==> Agrees(r, inv[k]);
  }

  /** A query counts no more rows than a prefix of it. */
  lemma {:induction false} CountPrefix(rows: seq<Row>, q: seq<Term>, k: nat)
    requires k <= |q|
    ensures Count(rows, q) <= Count(rows, q[..k])
  {
    if rows != [] {
      var n := |rows| - 1;
      CountPrefix(rows[..n], q, k);
      assert Matches(rows[n], q) ==> Matches(rows[n], q[..k]);
    }
  }

  // ---- Counting with the tree ----

  /** The most common value of the variable that term `q` of the query is on, as `node` has it. */
  function CommonAt(node: Node, queryIndex: nat): int {
    var j := queryIndex - node.index - 1;
    if 0 <= j < |node.varys| then node.varys[j].mostCommonValue else -1
  }

  ghost function LastIndex(q: seq<Term>): int {
    if q == [] then -1 else q[|q| - 1].index
  }

  /** `node` is where the first `k` terms of the query lead; a missing node stands for no rows. */
  ghost predicate Leads(node: Option<Node>, k: nat, q: seq<Term>, rows: seq<Row>, numVar: nat) {
    && k <= |q|
    && match node
       case None => Count(rows, q[..k]) == 0
       case Some(n) => NodeOk(n, rows, numVar, q[..k]) && n.index == LastIndex(q[..k])
  }

  lemma LeadsAnswer(node: Option<Node>, k: nat, q: seq<Term>, rows: seq<Row>, numVar: nat)
    requires Leads(node, k, q, rows, numVar) && Ordered(q, numVar)
    ensures node.None? ==> Count(rows, q) == 0
    ensures node.Some? && node.value.index >= LastIndex(q) ==> Count(rows, q) == node.value.count
    ensures node.Some? && node.value.index < LastIndex(q) ==>
              && k < |q|
              && 0 <= q[k].index - node.value.index - 1 < |node.value.varys|
              && VaryOk(node.value.varys[q[k].index - node.value.index - 1], rows, numVar, q[k].index, q[..k])
  {
    if node.None? {
      CountPrefix(rows, q, k);
    } else if node.value.index >= LastIndex(q) {
      assert k == |q|;
      assert q[..k] == q;
    }
  }

  lemma LeadsDown(vary: Vary, k: nat, q: seq<Term>, rows: seq<Row>, numVar: nat)
    requires k < |q| && Ordered(q, numVar) && VaryOk(vary, rows, numVar, q[k].index, q[..k])
    requires q[k].value != vary.mostCommonValue
    ensures Leads(if q[k].value == 0 then vary.zeroNode else vary.oneNode, k + 1, q, rows, numVar)
  {
    assert q[..k + 1] == q[..k] + [q[k]];
  }

  lemma FlippedLeads(node: Option<Node>, k: nat, q: seq<Term>, rows: seq<Row>, numVar: nat)
    requires k < |q| && Ordered(q, numVar) && Leads(node, k, q, rows, numVar)
    ensures Ordered(Flipped(q, k), numVar) && Leads(node, k, Flipped(q, k), rows, numVar)
    ensures LastIndex(Flipped(q, k)) == LastIndex(q) && Flipped(Flipped(q, k), k) == q
  {
    assert Flipped(q, k)[..k] == q[..k];
  }

  /** The queries of an ordered query are different objects. */
  lemma Apart(queries: seq<Query>, numVar: nat)
    requires Ordered(Terms(queries), numVar)
    ensures forall i, j :: 0 <= i < j < |queries| ==> queries[i] != queries[j]
  {
    forall i, j | 0 <= i < j < |queries| ensures queries[i] != queries[j] {
      assert Terms(queries)[i].index < Terms(queries)[j].index;
    }
  }

  /** The query without its term `k`. */
  method SuperQuery(queries: seq<Query>, k: nat) returns (super: seq<Query>)
    requires k < |queries|
    ensures super == queries[..k] + queries[k + 1..]
    ensures Terms(super) == Without(Terms(queries), k)
  {
    super := [];
    for i := 0 to |queries|
      invariant super == if i <= k then queries[..i] else queries[..k] + queries[k + 1..i]
    {
      if i != k {
        super := super + [queries[i]];
      }
    }
  }

  /** The count of a query, from the node its first `k` terms lead to.  Values that are toggled on the
      way are put back. */
  method GetCount(node: Option<Node>, k: nat, queries: seq<Query>, lastQueryIndex: int, root: Node,
                  ghost rows: seq<Row>, ghost numVar: nat)
    returns (count: int)
    requires AllRows(rows, numVar) && NodeOk(root, rows, numVar, []) && root.index == -1
    requires Ordered(Terms(queries), numVar) && lastQueryIndex == LastIndex(Terms(queries))
    requires Leads(node, k, Terms(queries), rows, numVar)
    modifies queries
    ensures forall i :: 0 <= i < |queries| ==> queries[i].value == old(queries[i].value)
    ensures count == Count(rows, old(Terms(queries)))
    decreases |queries|, |queries| - k,
              if node.Some? && k < |queries| && queries[k].value == CommonAt(node.value, queries[k].index) then 2 else 0
  {
    ghost var terms := Terms(queries);
    LeadsAnswer(node, k, terms, rows, numVar);
    if node.None? {
      return 0;
    }
    if node.value.index >= lastQueryIndex {
      return node.value.count;
    }
    var query := queries[k];
    assert terms[k] == Term(query.index, query.value);
    var vary := node.value.varys[query.index - node.value.index - 1];
    if query.value == vary.mostCommonValue {
      count := GetCommonCount(node, k, queries, lastQueryIndex, root, rows, numVar);
    } else {
      LeadsDown(vary, k, terms, rows, numVar);
      var child := if query.value == 0 then vary.zeroNode else vary.oneNode;
      count := GetCount(child, k + 1, queries, lastQueryIndex, root, rows, numVar);
    }
  }

  /** The count when term `k` asks for the value that is not stored: what the query without the term
      counts, less what it counts with the term toggled. */
  method GetCommonCount(node: Option<Node>, k: nat, queries: seq<Query>, lastQueryIndex: int, root: Node,
                        ghost rows: seq<Row>, ghost numVar: nat)
    returns (count: int)
    requires AllRows(rows, numVar) && NodeOk(root, rows, numVar, []) && root.index == -1
    requires Ordered(Terms(queries), numVar) && lastQueryIndex == LastIndex(Terms(queries))
    requires Leads(node, k, Terms(queries), rows, numVar) && node.Some? && k < |queries|
    requires queries[k].value == CommonAt(node.value, queries[k].index)
    modifies queries
    ensures forall i :: 0 <= i < |queries| ==> queries[i].value == old(queries[i].value)
    ensures count == Count(rows, old(Terms(queries)))
    decreases |queries|, |queries| - k, 1
  {
    ghost var terms := Terms(queries);
    Apart(queries, numVar);
    FlippedLeads(node, k, terms, rows, numVar);
    CountSplits(rows, numVar, terms, k);
    var superCount := GetSuperCount(root, queries, k, rows, numVar);
    var query := queries[k];
    var value := query.value;
    assert terms[k] == Term(query.index, value);
    query.value := 1 - value;
    assert Terms(queries) == Flipped(terms, k);
    var invertCount := GetCount(node, k, queries, lastQueryIndex, root, rows, numVar);
    query.value := value;
    count := superCount - invertCount;
  }

  /** The count of the query without its term `k`, from the root. */
  method GetSuperCount(root: Node, queries: seq<Query>, k: nat, ghost rows: seq<Row>,
                       ghost numVar: nat) returns (count: int)
    requires AllRows(rows, numVar) && NodeOk(root, rows, numVar, []) && root.index == -1
    requires Ordered(Terms(queries), numVar) && k < |queries|
    modifies queries
    ensures forall i :: 0 <= i < |queries| ==> queries[i].value == old(queries[i].value)
    ensures count == Count(rows, Without(old(Terms(queries)), k))
    decreases |queries|, 0
  {
    Apart(queries, numVar);
    var super := SuperQuery(queries, k);
    count := GetTreeCount(root, super, rows, numVar);
    forall i | 0 <= i < |queries| && i != k ensures queries[i].value == old(queries[i].value) {
      assert queries[i] == super[if i < k then i else i - 1];
    }
  }

  /** The AD-tree agrees with counting: for every query, sorted by index and with 0/1 values, the tree
      gives the number of rows of the data set that match, and leaves the query as it was. */
  method GetTreeCount(root: Node, queries: seq<Query>, ghost rows: seq<Row>, ghost numVar: nat) returns (count: int)
    requires AllRows(rows, numVar) && NodeOk(root, rows, numVar, []) && root.index == -1
    requires Ordered(Terms(queries), numVar)
    modifies queries
    ensures forall i :: 0 <= i < |queries| ==> queries[i].value == old(queries[i].value)
    ensures count == Count(rows, old(Terms(queries)))
    decreases |queries|, |queries| + 1, 0
  {
    var lastQueryIndex: int := -1;
    if |queries| > 0 {
      lastQueryIndex := queries[|queries| - 1].index;
    }
    assert Terms(queries)[..0] == [];
    count := GetCount(Some(root), 0, queries, lastQueryIndex, root, rows, numVar);
  }

  /** Building the tree and querying it is the same as counting in the data as they were. */
  method TreeAgreesWithCounting(data: Data, queries: seq<Query>) returns (cached: int, counted: nat)
    requires data.Valid() && Ordered(Terms(queries), data.numVar)
    modifies data, queries
    ensures cached == counted == Count(old(data.rows), old(Terms(queries)))
    ensures multiset(data.rows) == old(multiset(data.rows)) && Terms(queries) == old(Terms(queries))
  {
    var terms := Terms(queries);
    counted := CountData(data.rows, data.numVar, terms);
    ghost var rows := data.rows;
    var root := MakeTree(data);
    assert Terms(queries) == terms;
    cached := GetTreeCount(root, queries, rows, data.numVar);
    assert Terms(queries) == terms;
  }
}
