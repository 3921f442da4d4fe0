/** Records of binary variables, and their order by the columns from an offset on. */
module RecordOrder {

  type Row = seq<int>

  /** A row of `numVar` binary variables. */
  predicate IsRow(r: Row, numVar: nat) {
    |r| == numVar && forall v :: 0 <= v < numVar ==> r[v] == 0 || r[v] == 1
  }

  predicate AllRows(rows: seq<Row>, numVar: nat) {
    forall i :: 0 <= i < |rows| ==> IsRow(rows[i], numVar)
  }

  // ---- Comparing rows ----

  /** Rows `a` and `b` are in order from column `o` on. */
  predicate LexLe(a: Row, b: Row, o: nat)
    requires |a| == |b|
    decreases |a| - o
  {
    if o >= |a| then true
    else if a[o] != b[o] then a[o] < b[o]
    else LexLe(a, b, o + 1)
  }

  /** The comparison of two records from a column on: negative, zero or positive. */
  method CompareRecord(a: Row, b: Row, n: nat, offset: nat) returns (c: int)
    requires |a| == |b| == n
    ensures c <= 0 <==> LexLe(a, b, offset)
    ensures c >= 0 <==> LexLe(b, a, offset)
    ensures c == 0 <==> (forall v :: offset <= v < n ==> a[v] == b[v])
  {
    var v := offset;
    while v < n
      invariant offset <= v
      invariant forall w :: offset <= w < v && w < n ==> a[w] == b[w]
      invariant LexLe(a, b, v) == LexLe(a, b, offset) && LexLe(b, a, v) == LexLe(b, a, offset)
    {
      if a[v] != b[v] {
        return a[v] - b[v];
      }
      v := v + 1;
    }
    return 0;
  }

  lemma {:induction false} LexTotal(a: Row, b: Row, o: nat)
    requires |a| == |b|
    ensures LexLe(a, b, o) || LexLe(b, a, o)
    decreases |a| - o
  {
    if o < |a| && a[o] == b[o] {
      LexTotal(a, b, o + 1);
    }
  }

  lemma {:induction false} LexTransitive(a: Row, b: Row, c: Row, o: nat)
    requires |a| == |b| == |c| && LexLe(a, b, o) && LexLe(b, c, o)
    ensures LexLe(a, c, o)
    decreases |a| - o
  {
    if o < |a| && a[o] == b[o] == c[o] {
      LexTransitive(a, b, c, o + 1);
    }
  }

  /** The rows are in order from column `o` on. */
  predicate Sorted(rows: seq<Row>, numVar: nat, o: nat)
    requires AllRows(rows, numVar)
  {
    forall i, j :: 0 <= i < j < |rows| ==> LexLe(rows[i], rows[j], o)
  }
}
