/** The logs of a TL2 transaction: the write-set with its one-bit Bloom filter, and the
    undo log of thread-local stores.

    A log is an ordered list of entries that only grows while a transaction runs.  This
    module says what a log means: the latest store to every address.  Class `Log` of module
    `Tl2LogList` is the list with its `put` and `tail` cursors, whose nodes are kept and reused
    from one transaction to the next.  */
module Tl2Log {
  import opened Options

  type Addr = nat
  type Val = int

  /** The part of a write-set entry that is fixed by the store: where and what. */
  datatype Pair = Pair(addr: Addr, valu: Val)

  type Memory = map<Addr, Val>

  /** Memory is zero where nothing was ever written. */
  function Get(m: Memory, a: Addr): Val {
    if a in m then m[a] else 0
  }

  /** What the entries of a log say about address `a`: the value of the last one for it. */
  function LastStore(es: seq<Pair>, a: Addr): Option<Val> {
    if es == [] then None
    else
      var later := LastStore(es[1..], a);
      if later.Some? then later
      else if es[0].addr == a then Some(es[0].valu) else None
  }

  lemma {:induction false} LastStoreAppend(es: seq<Pair>, e: Pair, a: Addr)
    ensures LastStore(es + [e], a) == if e.addr == a then Some(e.valu) else LastStore(es, a)
  {
    if es == [] {
      assert ([] + [e])[1..] == [];
    } else {
      assert (es + [e])[1..] == es[1..] + [e];
      LastStoreAppend(es[1..], e, a);
    }
  }

  /** A log speaks of `a` exactly when one of its entries stores to it. */
  lemma {:induction false} LastStoreFound(es: seq<Pair>, a: Addr)
    ensures LastStore(es, a).Some? <==> exists i :: 0 <= i < |es| && es[i].addr == a
  {
    if es != [] {
      LastStoreFound(es[1..], a);
      if LastStore(es[1..], a).Some? {
        var i :| 0 <= i < |es[1..]| && es[1..][i].addr == a;
        assert es[i + 1].addr == a;
      } else {
        forall i | 1 <= i < |es| ensures es[i].addr != a {
          assert es[i] == es[1..][i - 1];
        }
      }
    }
  }

  /** The entry that the backward scans of `TxLoad` and `TxStore` stop at. */
  lemma {:induction false} LastStoreAt(es: seq<Pair>, i: nat)
    requires i < |es|
    requires forall j :: i < j < |es| ==> es[j].addr != es[i].addr
    ensures LastStore(es, es[i].addr) == Some(es[i].valu)
  {
    if i == 0 {
      forall j | 0 <= j < |es[1..]| ensures es[1..][j].addr != es[0].addr {
        assert es[1..][j] == es[j + 1];
      }
      LastStoreFound(es[1..], es[0].addr);
    } else {
      assert es[1..][i - 1] == es[i];
      forall j | i - 1 < j < |es[1..]| ensures es[1..][j].addr != es[i].addr {
        assert es[1..][j] == es[j + 1];
      }
      LastStoreAt(es[1..], i - 1);
    }
  }

  /** The entries with the last store to `a` replaced: `TxStore` does this when the location
      already holds the value and the write-set has an entry for it. */
  function Replace(es: seq<Pair>, a: Addr, x: Val): (r: seq<Pair>)
    ensures |r| == |es|
    ensures forall i :: 0 <= i < |es| ==> r[i].addr == es[i].addr
  {
    if es == [] then []
    else if LastStore(es[1..], a).Some? || es[0].addr != a then [es[0]] + Replace(es[1..], a, x)
    else [Pair(a, x)] + es[1..]
  }

  lemma {:induction false} LastStoreReplace(es: seq<Pair>, a: Addr, x: Val, b: Addr)
    requires LastStore(es, a).Some?
    ensures LastStore(Replace(es, a, x), b) == if a == b then Some(x) else LastStore(es, b)
  {
    if LastStore(es[1..], a).Some? {
      assert Replace(es, a, x)[1..] == Replace(es[1..], a, x);
      LastStoreReplace(es[1..], a, x, b);
    } else {
      assert Replace(es, a, x)[1..] == es[1..];
    }
  }

  lemma {:induction false} ReplaceAt(es: seq<Pair>, i: nat, x: Val)
    requires i < |es|
    requires forall j :: i < j < |es| ==> es[j].addr != es[i].addr
    ensures Replace(es, es[i].addr, x) == es[i := Pair(es[i].addr, x)]
  {
    if i == 0 {
      forall j | 0 <= j < |es[1..]| ensures es[1..][j].addr != es[0].addr {
        assert es[1..][j] == es[j + 1];
      }
      LastStoreFound(es[1..], es[0].addr);
    } else {
      assert es[1..][i - 1] == es[i];
      forall j | i - 1 < j < |es[1..]| ensures es[1..][j].addr != es[i].addr {
        assert es[1..][j] == es[j + 1];
      }
      ReplaceAt(es[1..], i - 1, x);
      LastStoreAt(es[1..], i - 1);
      var b, p := es[i].addr, Pair(es[i].addr, x);
      assert Replace(es, b, x) == [es[0]] + es[1..][i - 1 := p];
      assert [es[0]] + es[1..][i - 1 := p] == es[i := p];
    }
  }

  /** The bit worth `place` of the exclusive or of two numbers. */
  function XorBit(x: nat, y: nat, place: nat): nat
    requires place > 0
  {
    if (x / place) % 2 == (y / place) % 2 then 0 else place
  }

  /** The bit of the filter that stands for an address: bits 2 to 6 of it, exclusive or bits 5 to 9. */
  function FilterBit(a: Addr): nat {
    var x, y := a / 4, a / 32;
    XorBit(x, y, 1) + XorBit(x, y, 2) + XorBit(x, y, 4) + XorBit(x, y, 8) + XorBit(x, y, 16)
  }

  /** A write-set: its entries in the order they were recorded, and its Bloom filter, a word given as the
      set of its bits. */
  datatype WriteSet = WriteSet(entries: seq<Pair>, bloom: set<nat>)

  const EmptyWriteSet := WriteSet([], {})

  /** The filter has the bit of every address the log stores to. */
  ghost predicate Filtered(w: WriteSet) {
    forall i :: 0 <= i < |w.entries| ==> Admits(w.bloom, w.entries[i].addr)
  }

  predicate Admits(bloom: set<nat>, a: Addr) {
    FilterBit(a) in bloom
  }

  /** Recording a store: the filter bit is set and the entry goes to the end. */
  function Record(w: WriteSet, a: Addr, x: Val): WriteSet {
    WriteSet(w.entries + [Pair(a, x)], w.bloom + {FilterBit(a)})
  }

  /** The look-aside of `TxLoad`: the log is scanned only when the filter admits the address. */
  function Lookup(w: WriteSet, a: Addr): Option<Val> {
    if Admits(w.bloom, a) then LastStore(w.entries, a) else None
  }

  lemma RecordKeepsFilter(w: WriteSet, a: Addr, x: Val)
    requires Filtered(w)
    ensures Filtered(Record(w, a, x))
  {
    var w' := Record(w, a, x);
    forall i | 0 <= i < |w'.entries| ensures Admits(w'.bloom, w'.entries[i].addr) {
      if i < |w.entries| {
        assert w'.entries[i] == w.entries[i] && Admits(w.bloom, w.entries[i].addr);
      }
    }
  }

  /** No false negatives: skipping the scan never loses a store. */
  lemma LookupExact(w: WriteSet, a: Addr)
    requires Filtered(w)
    ensures Lookup(w, a) == LastStore(w.entries, a)
  {
    LastStoreFound(w.entries, a);
  }
}
