/** The log as the code keeps it: a list of nodes that outlives the transaction, a `put` cursor to
    the next free node and a `tail` cursor to the last one in use.  Its methods are proved against
    the meaning of logs in `Tl2Log`. */
module Tl2LogList {
  import opened Options
  import opened Tl2Log

  datatype AVPair = AVPair(addr: Addr, valu: Val, lockFor: nat)

  function PairOf(e: AVPair): Pair {
    Pair(e.addr, e.valu)
  }

  function Pairs(es: seq<AVPair>): (ps: seq<Pair>)
    ensures |ps| == |es|
    ensures forall i :: 0 <= i < |es| ==> ps[i] == PairOf(es[i])
  {
    seq(|es|, i requires 0 <= i < |es| => PairOf(es[i]))
  }

  /** What a log says when it is written back backwards: the first entry for `a` wins. */
  function FirstStore(es: seq<Pair>, a: Addr): Option<Val> {
    if es == [] then None
    else if es[0].addr == a then Some(es[0].valu)
    else FirstStore(es[1..], a)
  }

  lemma {:induction false} FirstStoreAppend(es: seq<Pair>, e: Pair, a: Addr)
    ensures FirstStore(es + [e], a) ==
            if FirstStore(es, a).Some? then FirstStore(es, a) else if e.addr == a then Some(e.valu) else None
  {
    if es == [] {
      assert ([] + [e])[1..] == [];
    } else {
      assert (es + [e])[1..] == es[1..] + [e];
      FirstStoreAppend(es[1..], e, a);
    }
  }

  function Or(o: Option<Val>, v: Val): Val {
    if o.Some? then o.value else v
  }

  /** An undo log for `before`: writing it back over `m` gives `before` again. */
  ghost predicate Undoes(es: seq<Pair>, m: Memory, before: Memory) {
    forall a :: Or(FirstStore(es, a), Get(m, a)) == Get(before, a)
  }

  lemma UndoSave(es: seq<Pair>, m: Memory, before: Memory, b: Addr, x: Val)
    requires Undoes(es, m, before)
    ensures Undoes(es + [Pair(b, Get(m, b))], m[b := x], before)
  {
    var e := Pair(b, Get(m, b));
    forall a ensures Or(FirstStore(es + [e], a), Get(m[b := x], a)) == Get(before, a) {
      FirstStoreAppend(es, e, a);
      assert Or(FirstStore(es, a), Get(m, a)) == Get(before, a);
    }
  }

  class Log {
    var list: seq<AVPair>
    var put: nat
    var tail: int
    var ovf: nat
    var bloom: set<nat>

    ghost predicate Valid()
      reads this
    {
      put <= |list| && tail == put - 1
    }

    ghost function Contents(): seq<Pair>
      requires Valid()
      reads this
    {
      Pairs(list[..put])
    }

    ghost function Value(): WriteSet
      requires Valid()
      reads this
    {
      WriteSet(Contents(), bloom)
    }

    /** A log with `sz` nodes, none in use. */
    constructor (sz: nat)
      ensures Valid() && Value() == EmptyWriteSet && |list| == sz && ovf == 0
    {
      list := seq(sz, _ => AVPair(0, 0, 0));
      put := 0;
      tail := -1;
      ovf := 0;
      bloom := {};
    }

    /** The log is emptied for the next transaction; its nodes stay. */
    method Reset()
      requires Valid()
      modifies this
      ensures Valid() && Value() == EmptyWriteSet && |list| == old(|list|) && ovf == old(ovf)
    {
      put := 0;
      tail := -1;
      bloom := {};
    }

    /** An entry goes to the next node, which is allocated if the list is used up. */
    method Append(e: AVPair)
      requires Valid()
      modifies this`list, this`put, this`tail, this`ovf
      ensures Valid() && Contents() == old(Contents()) + [PairOf(e)]
      ensures |list| == if old(put) == old(|list|) then old(|list|) + 1 else old(|list|)
      ensures ovf == if old(put) == old(|list|) then old(ovf) + 1 else old(ovf)
    {
      if put == |list| {
        ovf := ovf + 1;
        list := list + [e];
      } else {
        list := list[put := e];
      }
      tail := put;
      put := put + 1;
      assert list[..put] == old(list[..put]) + [e];
    }

    /** A deferred store. */
    method RecordStore(a: Addr, x: Val, lockFor: nat)
      requires Valid()
      modifies this
      ensures Valid() && Value() == Record(old(Value()), a, x)
    {
      bloom := bloom + {FilterBit(a)};
      Append(AVPair(a, x, lockFor));
    }

    /** The backward scan: the last node in use for `a`, or -1. */
    method FindLast(a: Addr) returns (i: int)
      requires Valid()
      ensures -1 <= i < put
      ensures i >= 0 ==> list[i].addr == a && (forall j :: i < j < put ==> list[j].addr != a)
      ensures i < 0 ==> forall j :: 0 <= j < put ==> list[j].addr != a
    {
      i := tail;
      while i >= 0
        invariant -1 <= i < put
        invariant forall j :: i < j < put ==> list[j].addr != a
      {
        if list[i].addr == a {
          return;
        }
        i := i - 1;
      }
    }

    /** The look-aside of a transactional load: the latest store to `a`, if there is one. */
    method LookAside(a: Addr) returns (r: Option<Val>)
      requires Valid() && Filtered(Value())
      ensures r == LastStore(Contents(), a)
    {
      LookupExact(Value(), a);
      r := None;
      if FilterBit(a) in bloom {
        var i := FindLast(a);
        if i >= 0 {
          LastStoreAt(Contents(), i);
          r := Some(list[i].valu);
        } else {
          LastStoreFound(Contents(), a);
        }
      }
    }

    /** A store of the value the location holds already: the entry for it, if any, is updated. */
    method UpdateLast(a: Addr, x: Val) returns (found: bool)
      requires Valid()
      modifies this`list
      ensures Valid()
      ensures found == LastStore(old(Contents()), a).Some?
      ensures Contents() == if found then Replace(old(Contents()), a, x) else old(Contents())
    {
      LastStoreFound(Contents(), a);
      var i := FindLast(a);
      found := i >= 0;
      if found {
        ReplaceAt(Contents(), i, x);
        list := list[i := list[i].(valu := x)];
        assert Contents() == old(Contents())[i := Pair(a, x)];
      }
    }

    /** The first entry for a lock. */
    method FindFirst(lockFor: nat) returns (i: int)
      requires Valid()
      ensures -1 <= i < put
      ensures i >= 0 ==> list[i].lockFor == lockFor && (forall j :: 0 <= j < i ==> list[j].lockFor != lockFor)
      ensures i < 0 ==> forall j :: 0 <= j < put ==> list[j].lockFor != lockFor
    {
      var e := 0;
      while e != put
        invariant 0 <= e <= put
        invariant forall j :: 0 <= j < e ==> list[j].lockFor != lockFor
        decreases put - e
      {
        if list[e].lockFor == lockFor {
          return e;
        }
        e := e + 1;
      }
      return -1;
    }

    /** Deferred stores reach memory in the order they were made: the last one to an address stays. */
    method WriteBackForward(m: Memory) returns (m': Memory)
      requires Valid()
      ensures forall a :: Get(m', a) == Or(LastStore(Contents(), a), Get(m, a))
    {
      m' := m;
      var e := 0;
      while e != put
        invariant 0 <= e <= put
        invariant forall a :: Get(m', a) == Or(LastStore(Contents()[..e], a), Get(m, a))
        decreases put - e
      {
        assert Contents()[..e + 1] == Contents()[..e] + [PairOf(list[e])];
        forall a ensures LastStore(Contents()[..e + 1], a) ==
                         if list[e].addr == a then Some(list[e].valu) else LastStore(Contents()[..e], a) {
          LastStoreAppend(Contents()[..e], PairOf(list[e]), a);
        }
        m' := m'[list[e].addr := list[e].valu];
        e := e + 1;
      }
      assert Contents()[..put] == Contents();
    }

    /** Saved values are put back in reverse: the first one saved for an address stays. */
    method WriteBackReverse(m: Memory) returns (m': Memory)
      requires Valid()
      ensures forall a :: Get(m', a) == Or(FirstStore(Contents(), a), Get(m, a))
    {
      m' := m;
      var e := tail;
      assert Contents()[put..] == [];
      while e >= 0
        invariant -1 <= e < put
        invariant forall a :: Get(m', a) == Or(FirstStore(Contents()[e + 1..], a), Get(m, a))
      {
        assert Contents()[e..][1..] == Contents()[e + 1..];
        m' := m'[list[e].addr := list[e].valu];
        e := e - 1;
      }
      assert Contents()[0..] == Contents();
    }

    /** A store to a thread-local location, made in place: the old value goes to this undo log. */
    method StoreLocal(m: Memory, a: Addr, x: Val, ghost before: Memory) returns (m': Memory)
      requires Valid() && Undoes(Contents(), m, before)
      modifies this`list, this`put, this`tail, this`ovf
      ensures Valid() && m' == m[a := x]
      ensures Undoes(Contents(), m', before)
    {
      UndoSave(Contents(), m, before, a, x);
      Append(AVPair(a, Get(m, a), 0));
      m' := m[a := x];
    }

    /** An abort restores every local location the transaction stored to. */
    method RollBack(m: Memory, ghost before: Memory) returns (m': Memory)
      requires Valid() && Undoes(Contents(), m, before)
      ensures forall a :: Get(m', a) == Get(before, a)
    {
      m' := m;
      if put != 0 {
        m' := WriteBackReverse(m);
      }
    }
  }
}
