/**
 The in-memory stable log: a sequence whose first element is a dummy that only remembers the
 index and term of the last entry compacted away.  It is proved to be a partial map from
 indexes to entries, over any sequence of operations.
 */
module Storage {

  datatype Entry = Entry(index: nat, term: nat, data: seq<int>)
  datatype Snap = Snap(index: nat, term: nat)
  datatype Fault = Compacted | Unavailable | OutOfDate
  datatype Result<+T> = Ok(value: T) | Err(fault: Fault)

  datatype Store = Store(ents: seq<Entry>, snap: Snap)

  ghost predicate Contiguous(es: seq<Entry>) {
    forall i :: 0 <= i < |es| ==> es[i].index == es[0].index + i
  }

  ghost predicate Wf(s: Store) {
    s.ents != [] && Contiguous(s.ents)
  }

  function Base(s: Store): nat
    requires s.ents != []
  {
    s.ents[0].index
  }

  function Last(s: Store): nat
    requires s.ents != []
  {
    s.ents[0].index + |s.ents| - 1
  }

  /** The element carrying an index in a contiguous run of entries. */
  function At(es: seq<Entry>, i: nat): Entry
    requires es != [] && es[0].index <= i < es[0].index + |es|
  {
    es[i - es[0].index]
  }

  /** The entries by index, the dummy excluded; and the terms by index, the dummy's included. */
  ghost function Entries(s: Store): map<nat, Entry>
    requires Wf(s)
  {
    map i: nat | Base(s) < i <= Last(s) :: At(s.ents, i)
  }

  ghost function Terms(s: Store): map<nat, nat>
    requires Wf(s)
  {
    map i: nat | Base(s) <= i <= Last(s) :: At(s.ents, i).term
  }

  function TermOf(s: Store, i: nat): Result<nat>
    requires s.ents != []
  {
    if i < Base(s) then Err(Compacted)
    else if i - Base(s) >= |s.ents| then Err(Unavailable)
    else Ok(s.ents[i - Base(s)].term)
  }

  /** The entries that `Append` keeps: those from the first index above the dummy, if they reach it. */
  function Kept(s: Store, es: seq<Entry>): seq<Entry>
    requires s.ents != []
  {
    if es == [] || es[0].index + |es| - 1 < Base(s) + 1 then []
    else if Base(s) + 1 > es[0].index then es[Base(s) + 1 - es[0].index..]
    else es
  }

  /** The kept entries follow on; otherwise the program panics. */
  predicate FollowsOn(s: Store, es: seq<Entry>)
    requires s.ents != []
  {
    Kept(s, es) != [] ==> Base(s) <= Kept(s, es)[0].index <= Last(s) + 1
  }

  /** What `Append` leaves. */
  function Appended(s: Store, es: seq<Entry>): Store
    requires s.ents != [] && FollowsOn(s, es)
  {
    var kept := Kept(s, es);
    if kept == [] then s else s.(ents := s.ents[..kept[0].index - Base(s)] + kept)
  }

  function CompactedTo(s: Store, i: nat): Store
    requires s.ents != [] && Base(s) < i <= Last(s)
  {
    var e := s.ents[i - Base(s)];
    s.(ents := [Entry(e.index, e.term, [])] + s.ents[i - Base(s) + 1..])
  }

  function WithSnapshot(s: Store, snap: Snap): Store {
    if s.snap.index >= snap.index then s else Store([Entry(snap.index, snap.term, [])], snap)
  }

  function Empty(): Store {
    Store([Entry(0, 0, [])], Snap(0, 0))
  }

  class MemoryStorage {
    var ents: seq<Entry>
    var snap: Snap

    ghost function Data(): Store
      reads this
    {
      Store(ents, snap)
    }

    constructor ()
      ensures Data() == Empty()
    {
      ents := [Entry(0, 0, [])];
      snap := Snap(0, 0);
    }

    method GetEntries(lo: nat, hi: nat) returns (r: Result<seq<Entry>>)
      requires Wf(Data()) && (lo >= Base(Data()) ==> lo <= hi <= Last(Data()) + 1)
      ensures lo < Base(Data()) ==> r == Err(Compacted)
      ensures lo >= Base(Data()) && Entries(Data()).Keys == {} ==> r == Err(Unavailable)
      ensures lo > Base(Data()) && Entries(Data()).Keys != {} ==>
                && r.Ok? && |r.value| == hi - lo
                && (forall i :: lo <= i < hi ==> i in Entries(Data()) && r.value[i - lo] == Entries(Data())[i])
      ensures r.Ok? ==> r.value == ents[lo - Base(Data())..hi - Base(Data())]
      // asked from the compaction point itself, it hands out the dummy
      ensures lo == Base(Data()) && lo < hi && Entries(Data()).Keys != {} ==> r.Ok? && r.value != [] && r.value[0] == ents[0]
    {
      var offset := ents[0].index;
      if lo < offset {
        return Err(Compacted);
      }
      assert |ents| > 1 ==> Base(Data()) + 1 in Entries(Data());
      if |ents| == 1 {
        assert forall i :: i !in Entries(Data());
        return Err(Unavailable);
      }
      return Ok(ents[lo - offset..hi - offset]);
    }

    method GetTerm(i: nat) returns (r: Result<nat>)
      requires Wf(Data())
      ensures r == TermOf(Data(), i)
      ensures r.Ok? <==> i in Terms(Data())
      ensures r.Ok? ==> r.value == Terms(Data())[i]
      ensures r == Err(Compacted) <==> i < Base(Data())
    {
      var offset := ents[0].index;
      if i < offset {
        return Err(Compacted);
      }
      if i - offset >= |ents| {
        return Err(Unavailable);
      }
      assert At(ents, i) == ents[i - offset];
      return Ok(ents[i - offset].term);
    }

    method Append(entries: seq<Entry>)
      requires ents != [] && FollowsOn(Data(), entries)
      modifies this
      ensures Data() == Appended(old(Data()), entries)
    {
      if |entries| == 0 {
        return;
      }
      var first := ents[0].index + 1;
      var last := entries[0].index + |entries| - 1;
      if last < first {
        return;
      }
      var es := entries;
      if first > es[0].index {
        es := es[first - es[0].index..];
      }
      var offset := es[0].index - ents[0].index;
      if |ents| > offset {
        ents := ents[..offset] + es;
      } else {
        assert ents[..offset] == ents;
        ents := ents + es;
      }
    }

    method Compact(i: nat) returns (r: Result<()>)
      requires Wf(Data()) && i <= Last(Data())
      modifies this
      ensures i <= old(Base(Data())) ==> r == Err(Compacted) && Data() == old(Data())
      ensures i > old(Base(Data())) ==> r == Ok(()) && Data() == CompactedTo(old(Data()), i)
    {
      var offset := ents[0].index;
      if i <= offset {
        return Err(Compacted);
      }
      var k := i - offset;
      ents := [Entry(ents[k].index, ents[k].term, [])] + ents[k + 1..];
      return Ok(());
    }

    method ApplySnapshot(s: Snap) returns (r: Result<()>)
      modifies this
      ensures Data() == WithSnapshot(old(Data()), s)
      ensures r.Err? <==> old(snap).index >= s.index
    {
      if snap.index >= s.index {
        return Err(OutOfDate);
      }
      snap := s;
      ents := [Entry(s.index, s.term, [])];
      return Ok(());
    }
  }

  // ---------------------------------------------------------------------------
  // The partial map behind the slice
  // ---------------------------------------------------------------------------

  /** The abstract log: where it starts, and what it holds above that. */
  datatype Log = Log(base: nat, baseTerm: nat, entries: map<nat, Entry>)

  ghost function View(s: Store): Log
    requires Wf(s)
  {
    Log(Base(s), s.ents[0].term, Entries(s))
  }

  /** Append overwrites from its first index above the base, and drops whatever lay beyond. */
  ghost function LogAppend(l: Log, es: seq<Entry>): Log {
    if es == [] || es[|es| - 1].index <= l.base then l
    else l.(entries := (map i | i in l.entries && i < es[0].index :: l.entries[i])
                       + (map i: nat | es[0].index <= i < es[0].index + |es| && i > l.base :: At(es, i)))
  }

  ghost function LogCompact(l: Log, i: nat): Log {
    if i in l.entries then Log(i, l.entries[i].term, map k | k in l.entries && k > i :: l.entries[k]) else l
  }

  lemma AppendedShape(s: Store, es: seq<Entry>)
    requires Wf(s) && Contiguous(es) && es != [] && es[0].index <= Last(s) + 1 && es[|es| - 1].index > Base(s)
    ensures FollowsOn(s, es)
    ensures var t := Appended(s, es);
            && Wf(t) && t.ents[0] == s.ents[0] && Last(t) == es[|es| - 1].index
            && (forall i :: Base(s) < i <= Last(t) ==>
                  At(t.ents, i) == if i < es[0].index then At(s.ents, i) else At(es, i))
  {
  }

  lemma AppendIsMapAppend(s: Store, es: seq<Entry>)
    requires Wf(s) && Contiguous(es) && (es != [] ==> es[0].index <= Last(s) + 1)
    ensures FollowsOn(s, es) && Wf(Appended(s, es)) && View(Appended(s, es)) == LogAppend(View(s), es)
  {
    if es != [] && es[|es| - 1].index > Base(s) {
      AppendedShape(s, es);
      var e, m := Entries(Appended(s, es)), LogAppend(View(s), es).entries;
      forall i: nat ensures i in e <==> i in m {
        if Base(s) < i <= es[|es| - 1].index {
          var x := At(Appended(s, es).ents, i);
          if i < es[0].index { assert At(s.ents, i) == x; } else { assert At(es, i) == x; }
        }
      }
      assert e.Keys == m.Keys;
      forall i | i in m ensures e[i] == m[i] {}
    }
  }

  lemma CompactIsMapCompact(s: Store, i: nat)
    requires Wf(s) && Base(s) < i <= Last(s)
    ensures Wf(CompactedTo(s, i)) && View(CompactedTo(s, i)) == LogCompact(View(s), i)
    ensures forall k :: k >= i && k in Terms(s) ==>
                          k in Terms(CompactedTo(s, i)) && Terms(CompactedTo(s, i))[k] == Terms(s)[k]
  {
    var t := CompactedTo(s, i);
    assert Base(t) == i && Last(t) == Last(s);
    var m := LogCompact(View(s), i).entries;
    assert Entries(t).Keys == m.Keys;
    forall k | k in m ensures Entries(t)[k] == m[k] {}
  }

  datatype Op = DoAppend(es: seq<Entry>) | DoCompact(i: nat) | DoSnapshot(snap: Snap)

  /** The calls the program accepts without panicking; that appended entries have consecutive indexes is left
      to the caller, and nothing checks it. */
  ghost predicate Allowed(s: Store, op: Op)
    requires Wf(s)
  {
    match op
    case DoAppend(es) => Contiguous(es) && (es != [] ==> es[0].index <= Last(s) + 1)
    case DoCompact(i) => i <= Last(s)
    case DoSnapshot(_) => true
  }

  ghost function Do(s: Store, op: Op): Store
    requires Wf(s) && Allowed(s, op)
  {
    match op
    case DoAppend(es) => Appended(s, es)
    case DoCompact(i) => if i <= Base(s) then s else CompactedTo(s, i)
    case DoSnapshot(snap) => WithSnapshot(s, snap)
  }

  /** The same operation on the abstract log, which also knows the last snapshot applied. */
  ghost function DoLog(l: Log, at: Snap, op: Op): (Log, Snap) {
    match op
    case DoAppend(es) => (LogAppend(l, es), at)
    case DoCompact(i) => (LogCompact(l, i), at)
    case DoSnapshot(snap) => if at.index >= snap.index then (l, at) else (Log(snap.index, snap.term, map[]), snap)
  }

  lemma OpRefines(s: Store, op: Op)
    requires Wf(s) && Allowed(s, op)
    ensures Wf(Do(s, op)) && (View(Do(s, op)), Do(s, op).snap) == DoLog(View(s), s.snap, op)
  {
    match op
    case DoAppend(es) => AppendIsMapAppend(s, es);
    case DoCompact(i) => if i > Base(s) { CompactIsMapCompact(s, i); }
    case DoSnapshot(snap) =>
      var t := WithSnapshot(s, snap);
      if s.snap.index < snap.index {
        assert forall i :: i !in Entries(t);
      }
  }

  ghost predicate Reaches(s: Store, ops: seq<Op>, t: Store)
    decreases |ops|
  {
    Wf(s) && if ops == [] then s == t else Allowed(s, ops[0]) && Reaches(Do(s, ops[0]), ops[1..], t)
  }

  ghost function LogRun(l: Log, at: Snap, ops: seq<Op>): (Log, Snap)
    decreases |ops|
  {
    if ops == [] then (l, at) else var (l', at') := DoLog(l, at, ops[0]); LogRun(l', at', ops[1..])
  }

  /** Any sequence of operations keeps the entries contiguous and does what the partial map does. */
  lemma {:induction false} StorageRefines(s: Store, ops: seq<Op>, t: Store)
    requires Reaches(s, ops, t)
    ensures Wf(t) && (View(t), t.snap) == LogRun(View(s), s.snap, ops)
    decreases |ops|
  {
    if ops != [] {
      OpRefines(s, ops[0]);
      StorageRefines(Do(s, ops[0]), ops[1..], t);
    }
  }
}
