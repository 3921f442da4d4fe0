/** Searching and shifting in the sorted slots of a tree node. */
module Slots {

  /** The first place whose key is not below `k`. */
  function Lower(keys: seq<int>, k: int): (r: nat)
    ensures r <= |keys|
  {
    if keys == [] || k <= keys[0] then 0 else 1 + Lower(keys[1..], k)
  }

  lemma {:induction false} LowerAt(keys: seq<int>, k: int)
    ensures Lower(keys, k) > 0 ==> keys[Lower(keys, k) - 1] < k
    ensures Lower(keys, k) < |keys| ==> k <= keys[Lower(keys, k)]
  {
    if !(keys == [] || k <= keys[0]) {
      LowerAt(keys[1..], k);
    }
  }

  lemma {:induction false} BelowLower(keys: seq<int>, k: int, i: nat)
    requires i < Lower(keys, k)
    ensures keys[i] < k
  {
    if i > 0 {
      BelowLower(keys[1..], k, i - 1);
    }
  }

  function InsertAt<T>(s: seq<T>, i: nat, x: T): seq<T>
    requires i <= |s|
  {
    s[..i] + [x] + s[i..]
  }

  function RemoveAt<T>(s: seq<T>, i: nat): seq<T>
    requires i < |s|
  {
    s[..i] + s[i + 1..]
  }

  /** A sequence cut to the right of an insertion. */
  lemma CutAfter<T>(s: seq<T>, i: nat, x: T, m: nat)
    requires i <= m <= |s|
    ensures InsertAt(s, i, x)[..m + 1] == InsertAt(s[..m], i, x) && InsertAt(s, i, x)[m + 1..] == s[m..]
  {
  }

  lemma CutJoins<T>(s: seq<T>, m: nat)
    requires m <= |s|
    ensures s[..m] + s[m..] == s
  {
  }

  /** A sequence cut to the left of an insertion. */
  lemma CutBefore<T>(s: seq<T>, i: nat, x: T, m: nat)
    requires m <= i <= |s|
    ensures InsertAt(s, i, x)[..m] == s[..m] && InsertAt(s, i, x)[m..] == InsertAt(s[m..], i - m, x)
  {
  }

  lemma Join<T>(a: seq<T>, b: seq<T>, c: seq<T>)
    ensures a + (b + c) == (a + b) + c
  {
  }

  lemma InsertWithin<T>(a: seq<T>, b: seq<T>, c: seq<T>, i: nat, x: T)
    requires i <= |b|
    ensures a + InsertAt(b, i, x) + c == InsertAt(a + b + c, |a| + i, x)
  {
    var s := a + b + c;
    assert s[..|a| + i] == a + b[..i];
    assert s[|a| + i..] == b[i..] + c;
  }

  lemma RemoveWithin<T>(a: seq<T>, b: seq<T>, c: seq<T>, i: nat)
    requires i < |b|
    ensures a + RemoveAt(b, i) + c == RemoveAt(a + b + c, |a| + i)
  {
    var s := a + b + c;
    assert s[..|a| + i] == a + b[..i];
    assert s[|a| + i + 1..] == b[i + 1..] + c;
  }

  lemma InsertIndex<T>(s: seq<T>, i: nat, x: T, j: nat)
    requires i <= |s| && j <= |s|
    ensures InsertAt(s, i, x)[j] == if j < i then s[j] else if j == i then x else s[j - 1]
  {
  }

  lemma RemoveInserted<T>(s: seq<T>, i: nat, x: T)
    requires i <= |s|
    ensures RemoveAt(InsertAt(s, i, x), i) == s
  {
    var t := InsertAt(s, i, x);
    assert t[..i] == s[..i] && t[i + 1..] == s[i..];
    assert s[..i] + s[i..] == s;
  }

  lemma RemoveIndex<T>(s: seq<T>, i: nat, j: nat)
    requires i < |s| && j < |s| - 1
    ensures RemoveAt(s, i)[j] == s[if j < i then j else j + 1]
  {
  }

  /** A row of two parts and what stands between them, cut in its right part. */
  lemma CutRowRight<T>(a: seq<T>, x: T, b: seq<T>, n: nat)
    requires 1 <= n <= |b|
    ensures (a + [x] + b)[..|a| + n] == a + [x] + b[..n - 1]
    ensures (a + [x] + b)[|a| + n] == b[n - 1] && (a + [x] + b)[|a| + n + 1..] == b[n..]
  {
  }

  lemma CutRowLeft<T>(a: seq<T>, x: T, b: seq<T>, m: nat)
    requires m < |a|
    ensures (a + [x] + b)[..m] == a[..m]
    ensures (a + [x] + b)[m] == a[m] && (a + [x] + b)[m + 1..] == a[m + 1..] + [x] + b
  {
  }

  lemma JoinFour<T>(a: seq<T>, b: seq<T>, c: seq<T>, d: seq<T>)
    ensures a + b + (c + d) == a + (b + c) + d
  {
  }

  lemma Regroup<T>(a: seq<T>, b: seq<T>, x: seq<T>, c: seq<T>, d: seq<T>)
    ensures a + (b + x + c) + d == (a + b) + x + (c + d)
  {
  }

  lemma PairInside<T>(s: seq<T>, i: nat)
    requires i + 1 < |s|
    ensures s == s[..i] + ([s[i], s[i + 1]] + s[i + 2..])
  {
  }
}
