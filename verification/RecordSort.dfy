/** The quick sort of the records: partitions and short selection sorts, with a stack of the parts that are still
    to be sorted. */
module RecordSort {
  import opened RecordOrder

  const CUTOFF: nat := 8

  /** A part of the table, both ends included. */
  datatype Part = Part(lo: nat, hi: nat)

  // ---- Rearranging ----

  function Swap(rows: seq<Row>, i: nat, j: nat): seq<Row>
    requires i < |rows| && j < |rows|
  {
    rows[i := rows[j]][j := rows[i]]
  }

  /** The row at `i` is one that was in the part. */
  ghost predicate FromPart(was: seq<Row>, row: Row, lo: nat, hi: nat) {
    exists k :: lo <= k <= hi && k < |was| && was[k] == row
  }

  /** The rows of the part are those that were there; all others stay. */
  ghost predicate Rearranged(was: seq<Row>, now: seq<Row>, lo: nat, hi: nat) {
    && |now| == |was| && multiset(now) == multiset(was)
    && (forall i :: 0 <= i < |was| && !(lo <= i <= hi) ==> now[i] == was[i])
    && (forall i :: lo <= i <= hi && i < |was| ==> FromPart(was, now[i], lo, hi))
  }

  lemma RearrangedSame(was: seq<Row>, lo: nat, hi: nat)
    ensures Rearranged(was, was, lo, hi)
  {
    forall i | lo <= i <= hi && i < |was| ensures FromPart(was, was[i], lo, hi) {
    }
  }

  lemma RearrangedOn(a: seq<Row>, b: seq<Row>, c: seq<Row>, lo: nat, hi: nat)
    requires Rearranged(a, b, lo, hi) && Rearranged(b, c, lo, hi)
    ensures Rearranged(a, c, lo, hi)
  {
    forall i | lo <= i <= hi && i < |a| ensures FromPart(a, c[i], lo, hi) {
      assert FromPart(b, c[i], lo, hi);
      var k :| lo <= k <= hi && k < |b| && b[k] == c[i];
      assert FromPart(a, b[k], lo, hi);
    }
  }

  lemma RearrangedIn(a: seq<Row>, b: seq<Row>, lo: nat, hi: nat, from: nat, to: nat)
    requires Rearranged(a, b, lo, hi) && from <= lo && hi <= to
    ensures Rearranged(a, b, from, to)
  {
    forall i | from <= i <= to && i < |a| ensures FromPart(a, b[i], from, to) {
      if lo <= i <= hi {
        assert FromPart(a, b[i], lo, hi);
        var k :| lo <= k <= hi && k < |a| && a[k] == b[i];
      } else {
        assert b[i] == a[i];
      }
    }
  }

  lemma SwapRearranges(rows: seq<Row>, i: nat, j: nat, lo: nat, hi: nat)
    requires lo <= i <= hi && lo <= j <= hi && hi < |rows|
    ensures Rearranged(rows, Swap(rows, i, j), lo, hi)
  {
    var now := Swap(rows, i, j);
    forall k | lo <= k <= hi ensures FromPart(rows, now[k], lo, hi) {
      assert now[k] == rows[if k == i then j else if k == j then i else k];
    }
    assert multiset(now) == multiset(rows);
  }

  /** The part has the rows it had, each as often. */
  lemma PartRearranged(was: seq<Row>, now: seq<Row>, start: nat, end: nat)
    requires start <= end <= |was| && |now| == |was| && multiset(now) == multiset(was)
    requires forall i :: 0 <= i < |was| && !(start <= i < end) ==> now[i] == was[i]
    ensures now[..start] == was[..start] && now[end..] == was[end..]
    ensures multiset(now[start..end]) == multiset(was[start..end])
  {
    assert now[..start] == was[..start] && now[end..] == was[end..];
    Parts(now, start, end);
    Parts(was, start, end);
    forall r ensures multiset(now[start..end])[r] == multiset(was[start..end])[r] {
      assert multiset(now)[r] == multiset(was)[r];
    }
  }

  lemma Parts(rows: seq<Row>, start: nat, end: nat)
    requires start <= end <= |rows|
    ensures multiset(rows) == multiset(rows[..start]) + multiset(rows[start..end]) + multiset(rows[end..])
  {
    assert rows == rows[..start] + rows[start..end] + rows[end..];
  }

  lemma RowsStay(was: seq<Row>, now: seq<Row>, lo: nat, hi: nat, numVar: nat)
    requires AllRows(was, numVar) && Rearranged(was, now, lo, hi)
    ensures AllRows(now, numVar)
  {
    forall i | 0 <= i < |now| ensures IsRow(now[i], numVar) {
      if lo <= i <= hi {
        assert FromPart(was, now[i], lo, hi);
      }
    }
  }

  // ---- Order ----

  ghost predicate Le(a: Row, b: Row, o: nat) {
    |a| == |b| && LexLe(a, b, o)
  }

  lemma LeOn(a: Row, b: Row, c: Row, o: nat)
    requires Le(a, b, o) && Le(b, c, o)
    ensures Le(a, c, o)
  {
    LexTransitive(a, b, c, o);
  }

  ghost predicate Ascending(rows: seq<Row>, lo: nat, hi: nat, o: nat) {
    forall i, j :: lo <= i < j <= hi && j < |rows| ==> Le(rows[i], rows[j], o)
  }

  /** All rows from `lo` to `hi` are at or before `row`, or at or after it. */
  ghost predicate AllBelow(rows: seq<Row>, lo: nat, hi: int, row: Row, o: nat) {
    forall i :: lo <= i <= hi && i < |rows| ==> Le(rows[i], row, o)
  }

  ghost predicate AllAbove(rows: seq<Row>, lo: nat, hi: int, row: Row, o: nat) {
    forall i :: lo <= i <= hi && i < |rows| ==> Le(row, rows[i], o)
  }

  method AtMost(a: Row, b: Row, numVar: nat, o: nat) returns (below: bool)
    requires |a| == |b| == numVar
    ensures below <==> Le(a, b, o)
    ensures !below ==> Le(b, a, o)
  {
    var c := CompareRecord(a, b, numVar, o);
    below := c <= 0;
  }

  lemma RangeSorted(rows: seq<Row>, start: nat, end: nat, numVar: nat, o: nat)
    requires AllRows(rows, numVar) && start <= end <= |rows|
    requires forall i, j :: start <= i < j < end ==> Le(rows[i], rows[j], o)
    ensures AllRows(rows[start..end], numVar) && Sorted(rows[start..end], numVar, o)
  {
  }

  // ---- Short parts ----

  /** A place of a largest row. */
  method FindMax(rows: seq<Row>, lo: nat, hi: nat, numVar: nat, o: nat) returns (max: nat)
    requires AllRows(rows, numVar) && lo <= hi < |rows|
    ensures lo <= max <= hi && AllBelow(rows, lo, hi, rows[max], o)
  {
    max := lo;
    LexTotal(rows[lo], rows[lo], o);
    for p := lo + 1 to hi + 1
      invariant lo <= max < p && AllBelow(rows, lo, p - 1, rows[max], o)
    {
      var below := AtMost(rows[p], rows[max], numVar, o);
      if !below {
        forall i | lo <= i < p ensures Le(rows[i], rows[p], o) {
          LeOn(rows[i], rows[max], rows[p], o);
        }
        LexTotal(rows[p], rows[p], o);
        max := p;
      }
    }
  }

  lemma MaxPlaced(rows: seq<Row>, lo: nat, top: nat, hi: nat, max: nat, o: nat)
    requires lo <= max <= top <= hi < |rows| && AllBelow(rows, lo, top, rows[max], o)
    requires forall i, j :: lo <= i < j <= hi && top < j ==> Le(rows[i], rows[j], o)
    ensures forall i, j :: lo <= i < j <= hi && top <= j ==> Le(Swap(rows, max, top)[i], Swap(rows, max, top)[j], o)
  {
    var now := Swap(rows, max, top);
    forall i, j | lo <= i < j <= hi && top <= j ensures Le(now[i], now[j], o) {
      var k := if i == max then top else if i == top then max else i;
      assert now[i] == rows[k];
      if j == top {
        assert now[j] == rows[max];
      } else {
        assert now[j] == rows[j];
        assert k < j;
      }
    }
  }

  /** Sorts a short part by selection: the largest row goes to the end, and so on. */
  method ShortSort(rows: seq<Row>, lo: nat, hi: nat, numVar: nat, o: nat) returns (now: seq<Row>)
    requires AllRows(rows, numVar) && lo <= hi < |rows|
    ensures AllRows(now, numVar) && Rearranged(rows, now, lo, hi) && Ascending(now, lo, hi, o)
  {
    now := rows;
    RearrangedSame(rows, lo, hi);
    var top := hi;
    while top > lo
      invariant lo <= top <= hi && AllRows(now, numVar) && Rearranged(rows, now, lo, hi)
      invariant forall i, j :: lo <= i < j <= hi && top < j ==> Le(now[i], now[j], o)
    {
      var max := FindMax(now, lo, top, numVar, o);
      SwapRearranges(now, max, top, lo, hi);
      RowsStay(now, Swap(now, max, top), lo, hi, numVar);
      RearrangedOn(rows, now, Swap(now, max, top), lo, hi);
      MaxPlaced(now, lo, top, hi, max, o);
      now := Swap(now, max, top);
      top := top - 1;
    }
  }

  // ---- Partitions ----

  /** Goes up to the first row after the pivot, which is at `lo`. */
  method ScanUp(rows: seq<Row>, lo: nat, hi: nat, from: nat, numVar: nat, o: nat) returns (loguy: nat)
    requires AllRows(rows, numVar) && lo <= from <= hi < |rows| && AllBelow(rows, lo + 1, from, rows[lo], o)
    ensures from < loguy <= hi + 1 && AllBelow(rows, lo + 1, loguy - 1, rows[lo], o)
    ensures loguy <= hi ==> Le(rows[lo], rows[loguy], o) && !Le(rows[loguy], rows[lo], o)
  {
    loguy := from + 1;
    while loguy <= hi
      invariant from < loguy <= hi + 1 && AllBelow(rows, lo + 1, loguy - 1, rows[lo], o)
    {
      var below := AtMost(rows[loguy], rows[lo], numVar, o);
      if !below {
        return;
      }
      loguy := loguy + 1;
    }
  }

  method ScanDown(rows: seq<Row>, lo: nat, hi: nat, from: nat, numVar: nat, o: nat) returns (higuy: nat)
    requires AllRows(rows, numVar) && lo < from <= hi + 1 <= |rows| && AllAbove(rows, from, hi, rows[lo], o)
    ensures lo <= higuy < from && AllAbove(rows, higuy + 1, hi, rows[lo], o)
    ensures higuy > lo ==> Le(rows[higuy], rows[lo], o) && !Le(rows[lo], rows[higuy], o)
  {
    higuy := from - 1;
    while higuy > lo
      invariant lo <= higuy < from && AllAbove(rows, higuy + 1, hi, rows[lo], o)
    {
      var above := AtMost(rows[lo], rows[higuy], numVar, o);
      if !above {
        return;
      }
      higuy := higuy - 1;
    }
  }

  /** Puts rows of the part on both sides of a pivot. */
  method Partition(rows: seq<Row>, lo: nat, hi: nat, numVar: nat, o: nat)
    returns (now: seq<Row>, loguy: nat, higuy: nat)
    requires AllRows(rows, numVar) && lo < hi < |rows|
    ensures AllRows(now, numVar) && Rearranged(rows, now, lo, hi) && lo <= higuy < loguy <= hi + 1
    ensures AllBelow(now, lo, loguy - 1, now[higuy], o) && AllAbove(now, higuy, hi, now[higuy], o)
  {
    var mid := lo + (hi - lo + 1) / 2;
    now := Swap(rows, mid, lo);
    SwapRearranges(rows, mid, lo, lo, hi);
    RowsStay(rows, now, lo, hi, numVar);
    loguy, higuy := lo, hi + 1;
    while true
      invariant AllRows(now, numVar) && Rearranged(rows, now, lo, hi) && lo <= loguy < higuy <= hi + 1
      invariant AllBelow(now, lo + 1, loguy, now[lo], o) && AllAbove(now, higuy, hi, now[lo], o)
      decreases higuy - loguy
    {
      loguy := ScanUp(now, lo, hi, loguy, numVar, o);
      higuy := ScanDown(now, lo, hi, higuy, numVar, o);
      if higuy < loguy {
        break;
      }
      SwapSides(now, lo, hi, loguy, higuy, o);
      SwapRearranges(now, loguy, higuy, lo, hi);
      RowsStay(now, Swap(now, loguy, higuy), lo, hi, numVar);
      RearrangedOn(rows, now, Swap(now, loguy, higuy), lo, hi);
      now := Swap(now, loguy, higuy);
    }
    PlacePivot(now, lo, hi, loguy, higuy, o);
    SwapRearranges(now, lo, higuy, lo, hi);
    RowsStay(now, Swap(now, lo, higuy), lo, hi, numVar);
    RearrangedOn(rows, now, Swap(now, lo, higuy), lo, hi);
    now := Swap(now, lo, higuy);
  }

  lemma SwapSides(rows: seq<Row>, lo: nat, hi: nat, loguy: nat, higuy: nat, o: nat)
    requires lo < loguy <= higuy <= hi < |rows|
    requires AllBelow(rows, lo + 1, loguy - 1, rows[lo], o) && AllAbove(rows, higuy + 1, hi, rows[lo], o)
    requires Le(rows[lo], rows[loguy], o) && !Le(rows[loguy], rows[lo], o)
    requires Le(rows[higuy], rows[lo], o)
    ensures var now := Swap(rows, loguy, higuy);
            && loguy < higuy && now[lo] == rows[lo]
            && AllBelow(now, lo + 1, loguy, now[lo], o) && AllAbove(now, higuy, hi, now[lo], o)
  {
    var now := Swap(rows, loguy, higuy);
    forall i | lo + 1 <= i <= loguy ensures Le(now[i], now[lo], o) {
      assert i < loguy ==> now[i] == rows[i];
    }
    forall i | higuy <= i <= hi ensures Le(now[lo], now[i], o) {
      assert i > higuy ==> now[i] == rows[i];
    }
  }

  lemma PlacePivot(rows: seq<Row>, lo: nat, hi: nat, loguy: nat, higuy: nat, o: nat)
    requires lo <= higuy < loguy <= hi + 1 <= |rows|
    requires AllBelow(rows, lo + 1, loguy - 1, rows[lo], o) && AllAbove(rows, higuy + 1, hi, rows[lo], o)
    ensures var now := Swap(rows, lo, higuy);
            AllBelow(now, lo, loguy - 1, now[higuy], o) && AllAbove(now, higuy, hi, now[higuy], o)
  {
    var now := Swap(rows, lo, higuy);
    LexTotal(rows[lo], rows[lo], o);
    forall i | lo <= i <= loguy - 1 ensures Le(now[i], now[higuy], o) {
      assert now[i] == rows[if i == lo then higuy else if i == higuy then lo else i];
    }
    forall i | higuy <= i <= hi ensures Le(now[higuy], now[i], o) {
      assert i > higuy ==> now[i] == rows[i];
    }
  }

  // ---- What is still to be sorted ----

  /** Both places are in one of the parts. */
  ghost predicate Together(parts: seq<Part>, i: nat, j: nat) {
    exists k :: 0 <= k < |parts| && parts[k].lo <= i && j <= parts[k].hi
  }

  /** Two rows that are in no part together are in order. */
  ghost predicate Settled(rows: seq<Row>, whole: Part, parts: seq<Part>, o: nat) {
    forall i: nat, j: nat :: whole.lo <= i < j <= whole.hi && j < |rows| ==> SettledAt(rows, parts, i, j, o)
  }

  ghost predicate SettledAt(rows: seq<Row>, parts: seq<Part>, i: nat, j: nat, o: nat) {
    i < |rows| && j < |rows| && (Together(parts, i, j) || Le(rows[i], rows[j], o))
  }

  ghost predicate Apart(parts: seq<Part>) {
    forall k, l :: 0 <= k < l < |parts| ==> parts[k].hi < parts[l].lo || parts[l].hi < parts[k].lo
  }

  ghost predicate Inside(part: Part, whole: Part) {
    whole.lo <= part.lo <= part.hi <= whole.hi
  }

  /** When a part has been rearranged, so that all is in order but what is together in smaller parts of it, only
      those are left of it. */
  lemma PartSettles(was: seq<Row>, now: seq<Row>, whole: Part, rest: seq<Part>, part: Part, more: seq<Part>, o: nat)
    requires Settled(was, whole, rest + [part], o) && Apart(rest + [part]) && Rearranged(was, now, part.lo, part.hi)
    requires Inside(part, whole) && whole.hi < |was|
    requires forall i: nat, j: nat :: part.lo <= i < j <= part.hi ==> SettledAt(now, more, i, j, o)
    ensures Settled(now, whole, rest + more, o)
  {
    forall i: nat, j: nat | whole.lo <= i < j <= whole.hi && j < |now| ensures SettledAt(now, rest + more, i, j, o) {
      PairSettles(was, now, whole, rest, part, more, i, j, o);
    }
  }

  lemma PairSettles(was: seq<Row>, now: seq<Row>, whole: Part, rest: seq<Part>, part: Part, more: seq<Part>,
                    i: nat, j: nat, o: nat)
    requires Settled(was, whole, rest + [part], o) && Apart(rest + [part]) && Rearranged(was, now, part.lo, part.hi)
    requires Inside(part, whole) && whole.hi < |was| && whole.lo <= i < j <= whole.hi
    requires part.lo <= i && j <= part.hi ==> SettledAt(now, more, i, j, o)
    ensures SettledAt(now, rest + more, i, j, o)
  {
    if part.lo <= i && j <= part.hi {
      if Together(more, i, j) {
        TogetherMore(rest, more, i, j);
      }
    } else {
      var i' := Origin(was, now, part, i);
      var j' := Origin(was, now, part, j);
      assert i' < j' && SettledAt(was, rest + [part], i', j', o);
      if Together(rest + [part], i', j') {
        TogetherElsewhere(rest, part, i, j, i', j');
        TogetherMore(rest, more, i, j);
      }
    }
  }

  /** Where a row was. */
  lemma Origin(was: seq<Row>, now: seq<Row>, part: Part, i: nat) returns (k: nat)
    requires Rearranged(was, now, part.lo, part.hi) && i < |was|
    ensures k < |was| && was[k] == now[i] && (if part.lo <= i <= part.hi then part.lo <= k <= part.hi else k == i)
  {
    if part.lo <= i <= part.hi {
      assert FromPart(was, now[i], part.lo, part.hi);
      k :| part.lo <= k <= part.hi && k < |was| && was[k] == now[i];
    } else {
      k := i;
    }
  }

  lemma TogetherMore(rest: seq<Part>, more: seq<Part>, i: nat, j: nat)
    requires Together(rest, i, j) || Together(more, i, j)
    ensures Together(rest + more, i, j)
  {
    if Together(rest, i, j) {
      var k :| 0 <= k < |rest| && rest[k].lo <= i && j <= rest[k].hi;
      assert (rest + more)[k] == rest[k];
    } else {
      var k :| 0 <= k < |more| && more[k].lo <= i && j <= more[k].hi;
      assert (rest + more)[|rest| + k] == more[k];
    }
  }

  lemma TogetherElsewhere(rest: seq<Part>, part: Part, i: nat, j: nat, i': nat, j': nat)
    requires Apart(rest + [part]) && i < j && i' < j' && !(part.lo <= i && j <= part.hi)
    requires if part.lo <= i <= part.hi then part.lo <= i' <= part.hi else i' == i
    requires if part.lo <= j <= part.hi then part.lo <= j' <= part.hi else j' == j
    requires Together(rest + [part], i', j')
    ensures Together(rest, i, j)
  {
    var all := rest + [part];
    var k :| 0 <= k < |all| && all[k].lo <= i' && j' <= all[k].hi;
    assert k < |rest|;
    assert all[|rest|] == part && all[k] == rest[k];
    assert rest[k].hi < part.lo || part.hi < rest[k].lo;
  }

  // ---- The stack ----

  function Size(part: Part): nat {
    if part.lo <= part.hi then part.hi - part.lo + 1 else 0
  }

  function Total(parts: seq<Part>): nat {
    if parts == [] then 0 else Total(parts[..|parts| - 1]) + Size(parts[|parts| - 1])
  }

  function Pow2(n: nat): nat {
    if n == 0 then 1 else 2 * Pow2(n - 1)
  }

  /** A part that has `k` others below it on the stack has at most one of `Pow2(k)` equal shares of all rows. */
  ghost predicate Halving(parts: seq<Part>, num: nat) {
    forall k :: 0 <= k < |parts| ==> Size(parts[k]) * Pow2(k) <= num
  }

  lemma {:induction false} Pow2Grows(m: nat, n: nat)
    requires m <= n
    ensures 1 <= Pow2(m) <= Pow2(n)
    decreases n
  {
    if m < n {
      Pow2Grows(m, n - 1);
    } else if n > 0 {
      Pow2Grows(n - 1, n - 1);
    }
  }

  /** A part that is cut has more than eight rows, so fewer than 29 are below it on the stack. */
  lemma Shallow(k: nat, size: nat, num: nat)
    requires size > CUTOFF && size * Pow2(k) <= num < 0x1_0000_0000
    ensures k < 29
  {
    if k >= 29 {
      Pow2Grows(29, k);
      Pow2Of29();
      Times(9, size, Pow2(k));
    }
  }

  lemma Pow2Of29()
    ensures Pow2(29) == 0x2000_0000
  {
    assert Pow2(8) == 256;
    assert Pow2(16) == 65536;
    assert Pow2(24) == 65536 * 256;
  }

  lemma HalvingMore(rest: seq<Part>, part: Part, large: Part, small: Part, num: nat)
    requires Halving(rest + [part], num) && Size(large) <= Size(part) && 2 * Size(small) <= Size(part)
    ensures Halving(rest + [large], num) && Halving(rest + [small], num) && Halving(rest + [large, small], num)
  {
    var k := |rest|;
    assert (rest + [part])[k] == part;
    assert Size(part) * Pow2(k) <= num;
    Times(Size(large), Size(part), Pow2(k));
    Times(Size(small), Size(part), Pow2(k));
    Times(2 * Size(small), Size(part), Pow2(k));
    assert Size(small) * Pow2(k + 1) == 2 * Size(small) * Pow2(k);
    forall l | 0 <= l < k ensures Size(rest[l]) * Pow2(l) <= num {
      assert (rest + [part])[l] == rest[l];
    }
  }

  lemma Times(a: nat, b: nat, c: nat)
    requires a <= b
    ensures a * c <= b * c
  {
  }

  // ---- The sort ----

  /** What holds between two turns of the loop. */
  ghost predicate Sorting(was: seq<Row>, now: seq<Row>, whole: Part, parts: seq<Part>, numVar: nat, o: nat) {
    && AllRows(now, numVar) && Rearranged(was, now, whole.lo, whole.hi) && whole.hi < |was|
    && Settled(now, whole, parts, o) && Apart(parts) && (forall k :: 0 <= k < |parts| ==> Inside(parts[k], whole))
    && Halving(parts, Size(whole))
  }

  /** The parts of two rows and more on the two sides of the pivot, the larger one first. */
  function Sides(part: Part, loguy: nat, higuy: nat): seq<Part>
    requires part.lo <= higuy < loguy <= part.hi + 1
  {
    var left := if part.lo + 1 < higuy then [Part(part.lo, higuy - 1)] else [];
    var right := if loguy < part.hi then [Part(loguy, part.hi)] else [];
    if higuy - part.lo >= part.hi + 1 - loguy then left + right else right + left
  }

  lemma SidesSettle(now: seq<Row>, part: Part, loguy: nat, higuy: nat, i: nat, j: nat, o: nat)
    requires part.lo <= higuy < loguy <= part.hi + 1 <= |now| && part.lo <= i < j <= part.hi
    requires AllBelow(now, part.lo, loguy - 1, now[higuy], o) && AllAbove(now, higuy, part.hi, now[higuy], o)
    ensures SettledAt(now, Sides(part, loguy, higuy), i, j, o)
  {
    var sides := Sides(part, loguy, higuy);
    if j < higuy {
      assert Part(part.lo, higuy - 1) in sides;
      TogetherIn(sides, Part(part.lo, higuy - 1), i, j);
    } else if loguy <= i {
      assert Part(loguy, part.hi) in sides;
      TogetherIn(sides, Part(loguy, part.hi), i, j);
    } else {
      LeOn(now[i], now[higuy], now[j], o);
    }
  }

  lemma TogetherIn(parts: seq<Part>, part: Part, i: nat, j: nat)
    requires part in parts && part.lo <= i && j <= part.hi
    ensures Together(parts, i, j)
  {
    var k :| 0 <= k < |parts| && parts[k] == part;
  }

  lemma SidesApart(rest: seq<Part>, part: Part, loguy: nat, higuy: nat)
    requires Apart(rest + [part]) && part.lo <= higuy < loguy <= part.hi + 1
    ensures Apart(rest + Sides(part, loguy, higuy))
  {
    var sides := Sides(part, loguy, higuy);
    var all := rest + sides;
    forall k, l | 0 <= k < l < |all| ensures all[k].hi < all[l].lo || all[l].hi < all[k].lo {
      if l < |rest| {
        assert (rest + [part])[k] == rest[k] && (rest + [part])[l] == rest[l];
      } else if k < |rest| {
        assert (rest + [part])[k] == rest[k] && (rest + [part])[|rest|] == part;
        assert Inside(sides[l - |rest|], part);
      }
    }
  }

  lemma SidesHalve(rest: seq<Part>, part: Part, loguy: nat, higuy: nat, num: nat)
    requires Halving(rest + [part], num) && part.lo <= higuy < loguy <= part.hi + 1
    ensures Halving(rest + Sides(part, loguy, higuy), num)
  {
    var sides := Sides(part, loguy, higuy);
    if sides == [] {
      assert rest + sides == rest;
      forall k | 0 <= k < |rest| ensures Size(rest[k]) * Pow2(k) <= num {
        assert (rest + [part])[k] == rest[k];
      }
    } else if |sides| == 1 {
      HalvingMore(rest, part, sides[0], Part(1, 0), num);
    } else {
      HalvingMore(rest, part, sides[0], sides[1], num);
      assert sides == [sides[0], sides[1]];
    }
  }

  lemma {:induction false} TotalAppend(a: seq<Part>, b: seq<Part>)
    ensures Total(a + b) == Total(a) + Total(b)
  {
    if b == [] {
      assert a + b == a;
    } else {
      TotalAppend(a, b[..|b| - 1]);
      assert (a + b)[..|a + b| - 1] == a + b[..|b| - 1];
    }
  }

  lemma SidesFewer(rest: seq<Part>, part: Part, loguy: nat, higuy: nat)
    requires part.lo <= higuy < loguy <= part.hi + 1
    ensures Total(rest + Sides(part, loguy, higuy)) < Total(rest + [part])
  {
    var sides := Sides(part, loguy, higuy);
    TotalAppend(rest, sides);
    TotalAppend(rest, [part]);
    assert [part][..0] == [];
    if |sides| == 1 {
      assert sides[..0] == [];
    } else if |sides| == 2 {
      assert sides[..1][..0] == [] && sides[..1] == [sides[0]];
    }
  }

  lemma CutSorts(was: seq<Row>, before: seq<Row>, now: seq<Row>, whole: Part, rest: seq<Part>, part: Part,
                 loguy: nat, higuy: nat, numVar: nat, o: nat)
    requires Sorting(was, before, whole, rest + [part], numVar, o) && Inside(part, whole) && AllRows(now, numVar)
    requires Rearranged(before, now, part.lo, part.hi) && part.lo <= higuy < loguy <= part.hi + 1
    requires AllBelow(now, part.lo, loguy - 1, now[higuy], o) && AllAbove(now, higuy, part.hi, now[higuy], o)
    ensures Sorting(was, now, whole, rest + Sides(part, loguy, higuy), numVar, o)
  {
    var sides := Sides(part, loguy, higuy);
    forall i: nat, j: nat | part.lo <= i < j <= part.hi ensures SettledAt(now, sides, i, j, o) {
      SidesSettle(now, part, loguy, higuy, i, j, o);
    }
    PartSettles(before, now, whole, rest, part, sides, o);
    RearrangedIn(before, now, part.lo, part.hi, whole.lo, whole.hi);
    RearrangedOn(was, before, now, whole.lo, whole.hi);
    SidesApart(rest, part, loguy, higuy);
    SidesHalve(rest, part, loguy, higuy, Size(whole));
    InsideStill(rest, part, sides, whole);
  }

  lemma InsideStill(rest: seq<Part>, part: Part, more: seq<Part>, whole: Part)
    requires forall k :: 0 <= k < |rest + [part]| ==> Inside((rest + [part])[k], whole)
    requires forall k :: 0 <= k < |more| ==> Inside(more[k], part)
    ensures forall k :: 0 <= k < |rest + more| ==> Inside((rest + more)[k], whole)
  {
    assert (rest + [part])[|rest|] == part;
    forall k | 0 <= k < |rest + more| ensures Inside((rest + more)[k], whole) {
      if k < |rest| {
        assert (rest + [part])[k] == rest[k];
      } else {
        assert Inside(more[k - |rest|], part);
      }
    }
  }

  lemma ShortSorts(was: seq<Row>, before: seq<Row>, now: seq<Row>, whole: Part, rest: seq<Part>, part: Part,
                   numVar: nat, o: nat)
    requires Sorting(was, before, whole, rest + [part], numVar, o) && Inside(part, whole) && AllRows(now, numVar)
    requires Rearranged(before, now, part.lo, part.hi) && Ascending(now, part.lo, part.hi, o)
    ensures Sorting(was, now, whole, rest, numVar, o)
  {
    PartSettles(before, now, whole, rest, part, [], o);
    assert rest + [] == rest;
    RearrangedIn(before, now, part.lo, part.hi, whole.lo, whole.hi);
    RearrangedOn(was, before, now, whole.lo, whole.hi);
    forall k | 0 <= k < |rest| ensures Size(rest[k]) * Pow2(k) <= Size(whole) && Inside(rest[k], whole) {
      assert (rest + [part])[k] == rest[k];
    }
    forall k, l | 0 <= k < l < |rest| ensures rest[k].hi < rest[l].lo || rest[l].hi < rest[k].lo {
      assert (rest + [part])[k] == rest[k] && (rest + [part])[l] == rest[l];
    }
  }

  /** Sorts `num` rows from `start` on by the columns from `o` on.  The part on top of the stack is the one that is
      worked on.  `depth` is the largest number of parts that have waited below it: the room for thirty is
      enough for any number of rows that the 32 bits of `num` can hold. */
  method SortRange(rows: seq<Row>, start: nat, num: nat, numVar: nat, o: nat)
    returns (now: seq<Row>, depth: nat)
    requires AllRows(rows, numVar) && start + num <= |rows|
    ensures AllRows(now, numVar) && |now| == |rows| && multiset(now) == multiset(rows)
    ensures forall i :: 0 <= i < |rows| && !(start <= i < start + num) ==> now[i] == rows[i]
    ensures forall i, j :: start <= i < j < start + num ==> Le(now[i], now[j], o)
    ensures num < 0x1_0000_0000 ==> depth < 30
  {
    now, depth := rows, 0;
    if num < 2 {
      return;
    }
    var whole := Part(start, start + num - 1);
    var parts := [whole];
    StartSorting(rows, whole, numVar, o);
    while parts != []
      invariant Sorting(rows, now, whole, parts, numVar, o)
      invariant num < 0x1_0000_0000 ==> depth < 30
      decreases Total(parts)
    {
      var rest, part := parts[..|parts| - 1], parts[|parts| - 1];
      assert parts == rest + [part] && Inside(part, whole);
      ghost var before := now;
      if Size(part) <= CUTOFF {
        now := ShortSort(now, part.lo, part.hi, numVar, o);
        ShortSorts(rows, before, now, whole, rest, part, numVar, o);
        parts := rest;
      } else {
        var loguy, higuy;
        now, loguy, higuy := Partition(now, part.lo, part.hi, numVar, o);
        CutSorts(rows, before, now, whole, rest, part, loguy, higuy, numVar, o);
        SidesFewer(rest, part, loguy, higuy);
        parts := rest + Sides(part, loguy, higuy);
        depth := if |rest| + 1 > depth then |rest| + 1 else depth;
        if num < 0x1_0000_0000 {
          assert (rest + [part])[|rest|] == part;
          Shallow(|rest|, Size(part), num);
        }
      }
    }
    AllSettled(now, whole, o);
  }

  lemma StartSorting(rows: seq<Row>, whole: Part, numVar: nat, o: nat)
    requires AllRows(rows, numVar) && whole.lo <= whole.hi < |rows|
    ensures Sorting(rows, rows, whole, [whole], numVar, o)
  {
    RearrangedSame(rows, whole.lo, whole.hi);
    forall i: nat, j: nat | whole.lo <= i < j <= whole.hi ensures SettledAt(rows, [whole], i, j, o) {
      TogetherIn([whole], whole, i, j);
    }
  }

  lemma AllSettled(rows: seq<Row>, whole: Part, o: nat)
    requires Settled(rows, whole, [], o) && whole.hi < |rows|
    ensures forall i, j :: whole.lo <= i < j <= whole.hi ==> Le(rows[i], rows[j], o)
  {
    forall i, j | whole.lo <= i < j <= whole.hi ensures Le(rows[i], rows[j], o) {
      assert SettledAt(rows, [], i, j, o);
    }
  }
}
