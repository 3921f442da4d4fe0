/** The record table of the Bayesian learner: rows of 0/1 variables, sorted in place by the columns from
    an offset on, and split by a binary search.  A query asks for the rows with given values in given
    columns. */
module BayesData {
  import opened RecordOrder
  import opened RecordSort

  // ---- Queries ----

  const WILDCARD: int := -1

  datatype Term = Term(index: nat, value: int)

  predicate Agrees(r: Row, t: Term) {
    t.index < |r| && (t.value == WILDCARD || r[t.index] == t.value)
  }

  predicate Matches(r: Row, q: seq<Term>) {
    forall i :: 0 <= i < |q| ==> Agrees(r, q[i])
  }

  /** The rows that a query asks for. */
  function Matching(rows: seq<Row>, q: seq<Term>): seq<Row> {
    if rows == [] then []
    else
      var rest := Matching(rows[..|rows| - 1], q);
      if Matches(rows[|rows| - 1], q) then rest + [rows[|rows| - 1]] else rest
  }

  lemma {:induction false} MatchingCount(rows: seq<Row>, q: seq<Term>, r: Row)
    ensures multiset(Matching(rows, q))[r] == if Matches(r, q) then multiset(rows)[r] else 0
  {
    if rows != [] {
      var init := rows[..|rows| - 1];
      MatchingCount(init, q, r);
      assert rows == init + [rows[|rows| - 1]];
    }
  }

  /** The rows asked for by a query with one more term are split off from those without it. */
  lemma MatchingMore(rows: seq<Row>, q: seq<Term>, t: Term, part: seq<Row>, whole: seq<Row>)
    requires multiset(whole) == multiset(Matching(rows, q))
    requires forall r :: multiset(part)[r] == if Agrees(r, t) then multiset(whole)[r] else 0
    ensures multiset(part) == multiset(Matching(rows, q + [t]))
  {
    forall r ensures multiset(part)[r] == multiset(Matching(rows, q + [t]))[r] {
      MatchingCount(rows, q, r);
      MatchingCount(rows, q + [t], r);
      assert Matches(r, q + [t]) <==> Matches(r, q) && Agrees(r, t) by {
        assert (q + [t])[|q|] == t;
        assert forall i :: 0 <= i < |q| ==> (q + [t])[i] == q[i];
      }
    }
  }

  /** Counting by brute force. */
  method CountData(rows: seq<Row>, numVar: nat, q: seq<Term>) returns (count: nat)
    requires AllRows(rows, numVar) && forall i :: 0 <= i < |q| ==> q[i].index < numVar
    ensures count == |Matching(rows, q)|
  {
    count := 0;
    for r := 0 to |rows|
      invariant count == |Matching(rows[..r], q)|
    {
      assert rows[..r + 1][..r] == rows[..r];
      var isMatch := true;
      var i := 0;
      while i < |q| && isMatch
        invariant 0 <= i <= |q|
        invariant isMatch ==> forall j :: 0 <= j < i ==> Agrees(rows[r], q[j])
        invariant !isMatch ==> !Matches(rows[r], q)
      {
        if q[i].value != WILDCARD && q[i].value != rows[r][q[i].index] {
          isMatch := false;
        }
        i := i + 1;
      }
      if isMatch {
        count := count + 1;
      }
    }
    assert rows[..|rows|] == rows;
  }

  // ---- The table ----

  class Data {
    const numVar: nat
    var rows: seq<Row>

    ghost predicate Valid()
      reads this
    {
      AllRows(rows, numVar)
    }

    constructor (numVar: nat, rows: seq<Row>)
      requires AllRows(rows, numVar)
      ensures Valid() && this.numVar == numVar && this.rows == rows
    {
      this.numVar := numVar;
      this.rows := rows;
    }

    /** The rows from `start` on are put in order by the columns from `offset` on; the others stay. */
    method Sort(start: nat, num: nat, offset: nat)
      requires Valid() && start + num <= |rows|
      modifies this
      ensures Valid() && |rows| == old(|rows|)
      ensures rows[..start] == old(rows[..start]) && rows[start + num..] == old(rows[start + num..])
      ensures AllRows(rows[start..start + num], numVar) && Sorted(rows[start..start + num], numVar, offset)
      ensures multiset(rows[start..start + num]) == old(multiset(rows[start..start + num]))
    {
      ghost var before := rows;
      var sorted, _ := SortRange(rows, start, num, numVar, offset);
      rows := sorted;
      PartRearranged(before, rows, start, start + num);
      RangeSorted(rows, start, start + num, numVar, offset);
    }

    /** How many rows of a sorted range have 0 in column `offset`: they come first. */
    method FindSplit(start: nat, num: nat, offset: nat) returns (n: nat)
      requires Valid() && start + num <= |rows| && offset < numVar
      requires Sorted(rows[start..start + num], numVar, offset)
      ensures n <= num
      ensures forall i :: start <= i < start + n ==> rows[i][offset] == 0
      ensures forall i :: start + n <= i < start + num ==> rows[i][offset] == 1
    {
      var low, high := start, start + num - 1;
      while low <= high
        invariant start <= low <= high + 1 <= start + num
        invariant forall i :: start <= i < low ==> rows[i][offset] == 0
        invariant forall i :: high < i < start + num ==> rows[i][offset] == 1
      {
        var mid := (low + high) / 2;
        ghost var part := rows[start..start + num];
        if rows[mid][offset] == 0 {
          forall i | start <= i <= mid ensures rows[i][offset] == 0 {
            assert i < mid ==> LexLe(part[i - start], part[mid - start], offset);
          }
          low := mid + 1;
        } else {
          forall i | mid <= i < start + num ensures rows[i][offset] == 1 {
            assert mid < i ==> LexLe(part[mid - start], part[i - start], offset);
          }
          high := mid - 1;
        }
      }
      n := low - start;
    }
  }
}
