/**
 The two-tier log: stable entries in storage, an unstable tail (and possibly a snapshot) in
 memory.  It is proved to read like one flat log, and its commit index to move only forward.
 */
module TieredLog {
  import opened Basics
  import opened Storage

  datatype Tiers = Tiers(store: Store, snap: Option<Snap>, ents: seq<Entry>, offset: nat, committed: nat, applied: nat)

  // ---------------------------------------------------------------------------
  // What the program computes from the two tiers
  // ---------------------------------------------------------------------------

  function FirstIndex(l: Tiers): nat
    requires l.store.ents != []
  {
    if l.snap.Some? then l.snap.value.index + 1 else Base(l.store) + 1
  }

  function LastIndex(l: Tiers): int
    requires l.store.ents != []
  {
    if l.ents != [] then l.offset + |l.ents| - 1
    else if l.snap.Some? then l.snap.value.index
    else Last(l.store)
  }

  function MaybeTerm(l: Tiers, i: nat): Option<nat> {
    if i < l.offset then
      if l.snap.Some? && l.snap.value.index == i then Some(l.snap.value.term) else None
    else if i < l.offset + |l.ents| then Some(l.ents[i - l.offset].term)
    else None
  }

  function TermAt(l: Tiers, i: nat): Result<nat>
    requires l.store.ents != []
  {
    if i < FirstIndex(l) - 1 || i > LastIndex(l) then Ok(0)
    else if MaybeTerm(l, i).Some? then Ok(MaybeTerm(l, i).value)
    else TermOf(l.store, i)
  }

  predicate MatchTerm(l: Tiers, i: nat, term: nat)
    requires l.store.ents != []
  {
    TermAt(l, i) == Ok(term)
  }

  function StableTo(l: Tiers, i: nat, term: nat): Tiers {
    if MaybeTerm(l, i) == Some(term) && i >= l.offset
    then l.(ents := l.ents[i + 1 - l.offset..], offset := i + 1) else l
  }

  /** None is the out-of-range panic. */
  function CommitTo(l: Tiers, to: nat): Option<Tiers>
    requires l.store.ents != []
  {
    if l.committed < to then (if LastIndex(l) < to then None else Some(l.(committed := to))) else Some(l)
  }

  function MaybeCommit(l: Tiers, to: nat, term: nat): Option<Tiers>
    requires l.store.ents != []
  {
    if to > l.committed && TermAt(l, to) == Ok(term) then CommitTo(l, to) else Some(l)
  }

  function Restore(l: Tiers, s: Snap): Tiers {
    l.(committed := s.index, offset := s.index + 1, ents := [], snap := Some(s))
  }

  /** `raft.restore` on a follower named in the snapshot's configuration. */
  function RestoreFrom(l: Tiers, s: Snap): Option<Tiers>
    requires l.store.ents != []
  {
    if s.index <= l.committed then Some(l)
    else if MatchTerm(l, s.index, s.term) then
      var c := CommitTo(l, s.index);
      if c.None? then None else Some(Restore(c.value, s))
    else Some(Restore(l, s))
  }

  // ---------------------------------------------------------------------------
  // The flat log
  // ---------------------------------------------------------------------------

  datatype Flat = Flat(base: nat, baseTerm: nat, entries: seq<Entry>)

  function FlatLast(f: Flat): nat {
    f.base + |f.entries|
  }

  /** Term 0 stands for "no such index". */
  function FlatTerm(f: Flat, i: nat): nat {
    if i < f.base || i > FlatLast(f) then 0
    else if i == f.base then f.baseTerm
    else f.entries[i - f.base - 1].term
  }

  /** The greatest index at most `index` whose term is at most `term`, for an index within the log. */
  function LastAtMost(f: Flat, index: nat, term: nat): (r: nat)
    ensures r <= index
    ensures index <= FlatLast(f) && FlatTerm(f, 0) <= term ==> FlatTerm(f, r) <= term
    ensures index <= FlatLast(f) ==> forall k :: r < k <= index ==> FlatTerm(f, k) > term
    ensures index > FlatLast(f) ==> r == index
  {
    if index > FlatLast(f) || index == 0 || FlatTerm(f, index) <= term then index
    else LastAtMost(f, index - 1, term)
  }

  /** The same, as the program finds it: stepping down from an index 0 whose term is still too high wraps
      round to the largest index there is, where no log has a term. */
  function ConflictByTerm(f: Flat, index: nat, term: nat): nat {
    var r := LastAtMost(f, index, term);
    if index <= FlatLast(f) && FlatTerm(f, r) > term then MAX_UINT64 else r
  }

  lemma {:induction false} WrapsOnly(f: Flat, index: nat, term: nat)
    requires index <= FlatLast(f) && FlatTerm(f, LastAtMost(f, index, term)) > term
    ensures forall k :: 0 <= k <= index ==> FlatTerm(f, k) > term
  {
    if index > 0 && FlatTerm(f, index) > term {
      WrapsOnly(f, index - 1, term);
    }
  }

  /** The search gives back an index beyond the log; otherwise it finds the greatest index, not after the given
      one, whose term is not above the given term, or wraps round if there is none. */
  lemma ConflictByTermExact(f: Flat, index: nat, term: nat)
    ensures var r := ConflictByTerm(f, index, term);
            if index > FlatLast(f) then r == index
            else if forall k :: 0 <= k <= index ==> FlatTerm(f, k) > term then r == MAX_UINT64
            else r <= index && FlatTerm(f, r) <= term && forall k :: r < k <= index ==> FlatTerm(f, k) > term
  {
    var r := LastAtMost(f, index, term);
    if index <= FlatLast(f) && FlatTerm(f, r) > term {
      WrapsOnly(f, index, term);
    }
  }

  /** es is the run of the log's entries that starts at index lo. */
  ghost predicate RunOf(f: Flat, lo: nat, es: seq<Entry>) {
    && f.base < lo && lo + |es| <= FlatLast(f) + 1
    && forall k :: 0 <= k < |es| ==> es[k] == f.entries[lo + k - f.base - 1]
  }

  ghost predicate Valid(l: Tiers) {
    && Wf(l.store)
    && (forall k :: 0 <= k < |l.ents| ==> l.ents[k].index == l.offset + k)
    && FirstIndex(l) <= l.offset
    // the stable part comes from storage, above its dummy
    && (FirstIndex(l) < l.offset ==> Base(l.store) < FirstIndex(l) && l.offset <= Last(l.store) + 1)
    // an empty tail starts right after what it follows
    && (l.ents == [] ==> l.offset == if l.snap.Some? then l.snap.value.index + 1 else Last(l.store) + 1)
  }

  /** The entry at an index of the log: from the tail if the tail reaches it, else from storage. */
  ghost function EntryAt(l: Tiers, i: nat): Entry
    requires Valid(l) && FirstIndex(l) <= i <= LastIndex(l)
  {
    if i < l.offset then At(l.store.ents, i) else l.ents[i - l.offset]
  }

  ghost function Abs(l: Tiers): Flat
    requires Valid(l)
  {
    Flat(FirstIndex(l) - 1,
         if l.snap.Some? then l.snap.value.term else l.store.ents[0].term,
         seq(LastIndex(l) + 1 - FirstIndex(l),
             k requires 0 <= k < LastIndex(l) + 1 - FirstIndex(l) => EntryAt(l, FirstIndex(l) + k)))
  }

  /** The bounds and every term agree with the flat log, and reading a term never fails. */
  lemma ReadsLikeFlat(l: Tiers, i: nat)
    requires Valid(l)
    ensures FirstIndex(l) == Abs(l).base + 1 && LastIndex(l) == FlatLast(Abs(l))
    ensures TermAt(l, i) == Ok(FlatTerm(Abs(l), i))
  {
    if FirstIndex(l) <= i <= LastIndex(l) {
      assert Abs(l).entries[i - FirstIndex(l)] == EntryAt(l, i);
    }
  }

  /** A range read as the program reads it: one part from storage, one from the tail. */
  function SliceOf(l: Tiers, lo: nat, hi: nat): (es: seq<Entry>)
    requires l.store.ents != [] && lo < hi <= l.offset + |l.ents|
    requires lo < l.offset ==> Base(l.store) < lo && l.offset <= Last(l.store) + 1
    ensures |es| == hi - lo
  {
    var b := Base(l.store);
    if hi <= l.offset then l.store.ents[lo - b..hi - b]
    else if lo < l.offset then l.store.ents[lo - b..l.offset - b] + l.ents[..hi - l.offset]
    else l.ents[lo - l.offset..hi - l.offset]
  }

  lemma AbsAt(l: Tiers, i: nat)
    requires Valid(l) && FirstIndex(l) <= i <= LastIndex(l)
    ensures i - FirstIndex(l) < |Abs(l).entries| && Abs(l).entries[i - FirstIndex(l)] == EntryAt(l, i)
  {
  }

  lemma RangeBounds(l: Tiers, lo: nat, hi: nat)
    requires Valid(l) && FirstIndex(l) <= lo < hi <= LastIndex(l) + 1
    ensures hi <= l.offset + |l.ents|
    ensures lo < l.offset ==> Base(l.store) < lo && l.offset <= Last(l.store) + 1
  {
  }

  lemma SliceAt(l: Tiers, lo: nat, hi: nat, k: nat)
    requires Valid(l) && FirstIndex(l) <= lo < hi <= LastIndex(l) + 1 && k < hi - lo
    requires hi <= l.offset + |l.ents| && (lo < l.offset ==> Base(l.store) < lo && l.offset <= Last(l.store) + 1)
    ensures SliceOf(l, lo, hi)[k] == EntryAt(l, lo + k)
  {
  }

  lemma SliceReadsFlat(l: Tiers, lo: nat, hi: nat)
    requires Valid(l) && FirstIndex(l) <= lo < hi <= LastIndex(l) + 1
    requires hi <= l.offset + |l.ents| && (lo < l.offset ==> Base(l.store) < lo && l.offset <= Last(l.store) + 1)
    ensures RunOf(Abs(l), lo, SliceOf(l, lo, hi))
  {
    var s := SliceOf(l, lo, hi);
    forall k | 0 <= k < |s| ensures s[k] == Abs(l).entries[lo + k - FirstIndex(l)] {
      SliceAt(l, lo, hi, k);
      AbsAt(l, lo + k);
    }
  }

  /** Storage holds everything the tail would give up through i, and nothing beyond if the tail ends there. */
  ghost predicate StorageHolds(l: Tiers, i: nat)
    requires l.store.ents != []
  {
    && i <= Last(l.store)
    && (forall k :: l.offset <= k <= i && Base(l.store) <= k && k < l.offset + |l.ents| ==>
          At(l.store.ents, k) == l.ents[k - l.offset])
    && (i + 1 == l.offset + |l.ents| ==> i == Last(l.store))
  }

  lemma SameAbsSameLast(l: Tiers, t: Tiers)
    requires Valid(l) && Valid(t) && Abs(l) == Abs(t)
    ensures LastIndex(l) == LastIndex(t)
  {
    ReadsLikeFlat(l, 0);
    ReadsLikeFlat(t, 0);
  }

  lemma SameEntriesSameAbs(l: Tiers, t: Tiers)
    requires Valid(l) && Valid(t) && FirstIndex(l) == FirstIndex(t) && LastIndex(l) == LastIndex(t)
    requires Abs(l).baseTerm == Abs(t).baseTerm
    requires forall i :: FirstIndex(l) <= i <= LastIndex(l) ==> EntryAt(t, i) == EntryAt(l, i)
    ensures Abs(t) == Abs(l)
  {
    assert Abs(t).entries == Abs(l).entries;
  }

  /** The tail may give up its entries through i; while a snapshot is pending it has to keep some, and
      storage must not have been compacted beyond the snapshot. */
  ghost predicate CanRelease(l: Tiers, i: nat)
    requires l.store.ents != []
  {
    && StorageHolds(l, i)
    && (l.snap.Some? ==> i + 1 < l.offset + |l.ents| && Base(l.store) <= l.snap.value.index)
  }

  lemma StableShape(l: Tiers, i: nat)
    requires Valid(l) && l.offset <= i < l.offset + |l.ents| && CanRelease(l, i)
    ensures var l' := l.(ents := l.ents[i + 1 - l.offset..], offset := i + 1);
            Valid(l') && FirstIndex(l') == FirstIndex(l) && LastIndex(l') == LastIndex(l)
  {
  }

  lemma StableKeeps(l: Tiers, i: nat)
    requires Valid(l) && l.offset <= i < l.offset + |l.ents| && CanRelease(l, i)
    ensures var l' := l.(ents := l.ents[i + 1 - l.offset..], offset := i + 1);
            Valid(l') && Abs(l') == Abs(l)
  {
    var l' := l.(ents := l.ents[i + 1 - l.offset..], offset := i + 1);
    StableShape(l, i);
    forall k | FirstIndex(l) <= k <= LastIndex(l) ensures EntryAt(l', k) == EntryAt(l, k) {
      if l.offset <= k <= i {
        assert At(l.store.ents, k) == l.ents[k - l.offset];
      }
    }
    SameEntriesSameAbs(l, l');
  }

  lemma StableNeeds(l: Tiers, l': Tiers, i: nat)
    requires Valid(l) && l.offset <= i < l.offset + |l.ents|
    requires l' == l.(ents := l.ents[i + 1 - l.offset..], offset := i + 1)
    requires Valid(l') && Abs(l') == Abs(l)
    ensures CanRelease(l, i)
  {
    SameAbsSameLast(l, l');
    forall k | l.offset <= k <= i ensures At(l.store.ents, k) == l.ents[k - l.offset] {
      AbsAt(l, k);
      AbsAt(l', k);
    }
  }

  /** Moving entries out of the tail leaves the log as it was iff the tail may give them up. */
  lemma StableToExact(l: Tiers, i: nat, term: nat)
    requires Valid(l) && StableTo(l, i, term) != l
    ensures (Valid(StableTo(l, i, term)) && Abs(StableTo(l, i, term)) == Abs(l)) <==> CanRelease(l, i)
  {
    var l' := StableTo(l, i, term);
    if CanRelease(l, i) {
      StableKeeps(l, i);
    }
    if Valid(l') && Abs(l') == Abs(l) {
      StableNeeds(l, l', i);
    }
  }

  /** The tail gives something up exactly for an index that it holds, named with the log's own term there, and
      then everything through that index. */
  lemma StableToIff(l: Tiers, i: nat, term: nat)
    requires Valid(l)
    ensures StableTo(l, i, term) != l <==> l.offset <= i < l.offset + |l.ents| && FlatTerm(Abs(l), i) == term
    ensures StableTo(l, i, term) != l ==> StableTo(l, i, term) == l.(ents := l.ents[i + 1 - l.offset..], offset := i + 1)
  {
    ReadsLikeFlat(l, i);
  }

  // ---------------------------------------------------------------------------
  // The commit index
  // ---------------------------------------------------------------------------

  /** Committing by quorum trips the out-of-range panic iff it is asked for term 0 beyond the log;
      a leader, whose term is not 0, never trips it, whatever index the quorum reports. */
  lemma MaybeCommitPanicsIff(l: Tiers, to: nat, term: nat)
    requires Valid(l) && l.committed <= LastIndex(l)
    ensures MaybeCommit(l, to, term).None? <==> term == 0 && to > LastIndex(l)
  {
    ReadsLikeFlat(l, to);
  }

  /** It moves only to an index of the log whose entry has the leader's own term. */
  lemma MaybeCommitOwnTerm(l: Tiers, to: nat, term: nat)
    requires Valid(l) && term > 0
    ensures MaybeCommit(l, to, term).Some?
    ensures MaybeCommit(l, to, term).value != l
            <==> l.committed < to <= LastIndex(l) && FlatTerm(Abs(l), to) == term
    ensures MaybeCommit(l, to, term).value != l ==> MaybeCommit(l, to, term).value == l.(committed := to)
  {
    ReadsLikeFlat(l, to);
  }

  /** Writing the first k entries of the tail to storage; storage panics if they do not follow on. */
  predicate CanPersist(l: Tiers, k: nat)
    requires l.store.ents != []
  {
    k <= |l.ents| && FollowsOn(l.store, l.ents[..k])
  }

  function Persisted(l: Tiers, k: nat): Tiers
    requires l.store.ents != [] && CanPersist(l, k)
  {
    l.(store := Appended(l.store, l.ents[..k]))
  }

  /** The tail starts above storage's dummy; without a pending snapshot it always does. */
  ghost predicate AboveDummy(l: Tiers)
    requires l.store.ents != []
  {
    l.ents != [] ==> Base(l.store) < l.offset
  }

  lemma PersistedShape(l: Tiers, k: nat)
    requires Valid(l) && CanPersist(l, k) && AboveDummy(l) && k > 0
    ensures var s := Persisted(l, k).store;
            && Wf(s) && s.ents[0] == l.store.ents[0] && Last(s) == l.offset + k - 1 && l.offset <= Last(l.store) + 1
            && (forall i :: Base(s) < i < l.offset ==> At(s.ents, i) == At(l.store.ents, i))
            && (forall i :: l.offset <= i < l.offset + k ==> At(s.ents, i) == l.ents[i - l.offset])
  {
    var es := l.ents[..k];
    assert Contiguous(es) && Kept(l.store, es) == es;
    AppendedShape(l.store, es);
    forall i | l.offset <= i < l.offset + k ensures At(es, i) == l.ents[i - l.offset] {}
  }

  /** Persisting changes where entries are kept, not what the log is; and what was persisted may then
      leave the tail. */
  lemma PersistKeeps(l: Tiers, k: nat)
    requires Valid(l) && CanPersist(l, k) && AboveDummy(l)
    ensures var t := Persisted(l, k);
            && Valid(t) && Abs(t) == Abs(l) && AboveDummy(t)
            && (k > 0 ==> StorageHolds(t, l.offset + k - 1))
  {
    var t := Persisted(l, k);
    if k == 0 {
      assert t == l;
    } else {
      PersistedShape(l, k);
      SameEntriesSameAbs(l, t);
    }
  }

  datatype Op =
    | QuorumCommit(to: nat, term: nat)
    | HeartbeatCommit(to: nat)
    | TakeSnapshot(snap: Snap)
    | Persist(k: nat)
    | Stabilise(i: nat, term: nat)

  ghost function Do(l: Tiers, op: Op): Option<Tiers>
    requires l.store.ents != []
  {
    match op
    case QuorumCommit(to, term) => MaybeCommit(l, to, term)
    case HeartbeatCommit(to) => CommitTo(l, to)
    case TakeSnapshot(s) => RestoreFrom(l, s)
    case Persist(k) => if CanPersist(l, k) then Some(Persisted(l, k)) else None
    case Stabilise(i, term) => Some(StableTo(l, i, term))
  }

  /** Entries leave the tail only once storage has them. */
  ghost predicate Proper(l: Tiers, op: Op)
    requires l.store.ents != []
  {
    op.Stabilise? ==> StableTo(l, op.i, op.term) == l || CanRelease(l, op.i)
  }

  /** Nothing that storage compacted away is uncommitted or awaited from a snapshot. */
  ghost predicate PastDummy(l: Tiers)
    requires l.store.ents != []
  {
    Base(l.store) <= l.committed && (l.snap.Some? ==> Base(l.store) <= l.snap.value.index)
  }

  /** What every operation keeps. */
  ghost predicate Sound(l: Tiers) {
    Valid(l) && PastDummy(l) && l.committed <= LastIndex(l)
  }

  ghost predicate Leads(l: Tiers, ops: seq<Op>, t: Tiers)
    decreases |ops|
  {
    l.store.ents != [] &&
    if ops == [] then l == t
    else Proper(l, ops[0]) && Do(l, ops[0]).Some? && Leads(Do(l, ops[0]).value, ops[1..], t)
  }

  /** Neither the commit index nor a restored snapshot can spoil the shape of the tiers. */
  lemma CommittedValid(l: Tiers, to: nat)
    requires Valid(l)
    ensures Valid(l.(committed := to)) && LastIndex(l.(committed := to)) == LastIndex(l)
  {
  }

  lemma RestoreValid(l: Tiers, s: Snap)
    requires Wf(l.store)
    ensures Valid(Restore(l, s)) && LastIndex(Restore(l, s)) == s.index
  {
  }

  lemma PersistStep(l: Tiers, k: nat)
    requires Valid(l) && PastDummy(l) && CanPersist(l, k)
    ensures Valid(Persisted(l, k)) && LastIndex(Persisted(l, k)) == LastIndex(l)
    ensures Base(Persisted(l, k).store) == Base(l.store)
  {
    PersistKeeps(l, k);
    if k > 0 {
      PersistedShape(l, k);
    } else {
      assert Persisted(l, k) == l;
    }
    SameAbsSameLast(l, Persisted(l, k));
  }

  lemma StabiliseStep(l: Tiers, i: nat, term: nat)
    requires Valid(l) && Proper(l, Stabilise(i, term))
    ensures Valid(StableTo(l, i, term)) && LastIndex(StableTo(l, i, term)) == LastIndex(l)
  {
    if StableTo(l, i, term) != l {
      StableKeeps(l, i);
      SameAbsSameLast(l, StableTo(l, i, term));
    }
  }

  lemma CommitStep(l: Tiers, op: Op)
    requires Sound(l) && Proper(l, op) && Do(l, op).Some?
    ensures Sound(Do(l, op).value) && l.committed <= Do(l, op).value.committed
  {
    match op
    case QuorumCommit(to, _) => CommittedValid(l, to);
    case HeartbeatCommit(to) => CommittedValid(l, to);
    case TakeSnapshot(s) => RestoreValid(l, s);
    case Persist(k) => PersistStep(l, k);
    case Stabilise(i, term) => StabiliseStep(l, i, term);
  }

  /** Along every run that does not panic, the commit index never falls and never passes the log's end. */
  lemma {:induction false} CommitForward(l: Tiers, ops: seq<Op>, t: Tiers)
    requires Sound(l) && Leads(l, ops, t)
    ensures Sound(t) && l.committed <= t.committed
    decreases |ops|
  {
    if ops != [] {
      CommitStep(l, ops[0]);
      CommitForward(Do(l, ops[0]).value, ops[1..], t);
    }
  }

  // ---------------------------------------------------------------------------
  // A flat log with a commit index
  // ---------------------------------------------------------------------------

  datatype Simple = Simple(log: Flat, committed: nat)

  ghost function View(l: Tiers): Simple
    requires Valid(l)
  {
    Simple(Abs(l), l.committed)
  }

  /** What an operation does to a flat log: commits move forward to an index of the log, a quorum's only to one of
      the term asked for; a snapshot beyond the commit index becomes the log, all of it committed; where entries
      are kept does not show.  None is the out-of-range panic. */
  ghost function DoFlat(f: Simple, op: Op): Option<Simple> {
    match op
    case QuorumCommit(to, term) =>
      if to <= f.committed || FlatTerm(f.log, to) != term then Some(f)
      else if to > FlatLast(f.log) then None else Some(f.(committed := to))
    case HeartbeatCommit(to) =>
      if to <= f.committed then Some(f) else if to > FlatLast(f.log) then None else Some(f.(committed := to))
    case TakeSnapshot(s) =>
      if s.index <= f.committed then Some(f)
      else if s.term == 0 && s.index > FlatLast(f.log) then None
      else Some(Simple(Flat(s.index, s.term, []), s.index))
    case Persist(_) => Some(f)
    case Stabilise(_, _) => Some(f)
  }

  /** After a snapshot the log is the snapshot: its index and term, and nothing above. */
  lemma RestoreIsFlat(l: Tiers, s: Snap)
    requires Wf(l.store)
    ensures Valid(Restore(l, s)) && View(Restore(l, s)) == Simple(Flat(s.index, s.term, []), s.index)
  {
    RestoreValid(l, s);
  }

  lemma CommittedView(l: Tiers, to: nat)
    requires Valid(l)
    ensures Valid(l.(committed := to)) && View(l.(committed := to)) == Simple(Abs(l), to)
  {
    var t := l.(committed := to);
    CommittedValid(l, to);
    SameEntriesSameAbs(l, t);
  }

  lemma CommitIsFlat(l: Tiers, to: nat)
    requires Valid(l)
    ensures CommitTo(l, to).Some? <==> DoFlat(View(l), HeartbeatCommit(to)).Some?
    ensures CommitTo(l, to).Some? ==>
              Valid(CommitTo(l, to).value) && Some(View(CommitTo(l, to).value)) == DoFlat(View(l), HeartbeatCommit(to))
  {
    ReadsLikeFlat(l, to);
    CommittedView(l, to);
  }

  lemma SnapshotIsFlat(l: Tiers, s: Snap)
    requires Valid(l)
    ensures RestoreFrom(l, s).Some? <==> DoFlat(View(l), TakeSnapshot(s)).Some?
    ensures RestoreFrom(l, s).Some? ==>
              Valid(RestoreFrom(l, s).value) && Some(View(RestoreFrom(l, s).value)) == DoFlat(View(l), TakeSnapshot(s))
  {
    ReadsLikeFlat(l, s.index);
    RestoreIsFlat(l, s);
    RestoreIsFlat(l.(committed := s.index), s);
  }

  /** Every operation on the two tiers is the one on the flat log, and panics only where that does, or where
      entries to persist do not follow on. */
  lemma OpIsFlat(l: Tiers, op: Op)
    requires Valid(l) && PastDummy(l) && Proper(l, op)
    ensures Do(l, op).None? <==> DoFlat(View(l), op).None? || (op.Persist? && !CanPersist(l, op.k))
    ensures Do(l, op).Some? ==> Valid(Do(l, op).value) && Some(View(Do(l, op).value)) == DoFlat(View(l), op)
  {
    match op
    case QuorumCommit(to, _) =>
      ReadsLikeFlat(l, to);
      CommittedView(l, to);
    case HeartbeatCommit(to) => CommitIsFlat(l, to);
    case TakeSnapshot(s) => SnapshotIsFlat(l, s);
    case Persist(k) => if CanPersist(l, k) { PersistKeeps(l, k); }
    case Stabilise(i, term) => if StableTo(l, i, term) != l { StableKeeps(l, i); }
  }

  ghost function RunFlat(f: Simple, ops: seq<Op>): Option<Simple>
    decreases |ops|
  {
    if ops == [] then Some(f)
    else if DoFlat(f, ops[0]).None? then None
    else RunFlat(DoFlat(f, ops[0]).value, ops[1..])
  }

  /** Along every run that does not panic, the two tiers hold what the flat log would. */
  lemma {:induction false} TiersRefineFlat(l: Tiers, ops: seq<Op>, t: Tiers)
    requires Sound(l) && Leads(l, ops, t)
    ensures Valid(t) && RunFlat(View(l), ops) == Some(View(t))
    decreases |ops|
  {
    if ops != [] {
      OpIsFlat(l, ops[0]);
      CommitStep(l, ops[0]);
      TiersRefineFlat(Do(l, ops[0]).value, ops[1..], t);
    }
  }

  // ---------------------------------------------------------------------------
  // The mutable log
  // ---------------------------------------------------------------------------

  class RaftLog {
    const storage: MemoryStorage
    var snap: Option<Snap>
    var ents: seq<Entry>
    var offset: nat
    var committed: nat
    var applied: nat

    ghost function Data(): Tiers
      reads this, storage
    {
      Tiers(storage.Data(), snap, ents, offset, committed, applied)
    }

    constructor (storage: MemoryStorage)
      requires Wf(storage.Data())
      ensures this.storage == storage && Sound(Data())
      ensures Data() == Tiers(storage.Data(), None, [], Last(storage.Data()) + 1, Base(storage.Data()), Base(storage.Data()))
    {
      this.storage := storage;
      snap, ents := None, [];
      offset := storage.ents[0].index + |storage.ents|;
      committed := storage.ents[0].index;
      applied := storage.ents[0].index;
    }

    method GetFirstIndex() returns (r: nat)
      requires Valid(Data())
      ensures r == Abs(Data()).base + 1
    {
      r := if snap.Some? then snap.value.index + 1 else storage.ents[0].index + 1;
    }

    method GetLastIndex() returns (r: nat)
      requires Valid(Data())
      ensures r == FlatLast(Abs(Data()))
    {
      ReadsLikeFlat(Data(), 0);
      if |ents| != 0 {
        return offset + |ents| - 1;
      }
      if snap.Some? {
        return snap.value.index;
      }
      return storage.ents[0].index + |storage.ents| - 1;
    }

    method GetTerm(i: nat) returns (r: nat)
      requires Valid(Data())
      ensures r == FlatTerm(Abs(Data()), i)
    {
      ReadsLikeFlat(Data(), i);
      var first := GetFirstIndex();
      var last := GetLastIndex();
      if i + 1 < first || i > last {
        return 0;
      }
      if i < offset {
        if snap.Some? && snap.value.index == i {
          return snap.value.term;
        }
      } else if i < offset + |ents| {
        return ents[i - offset].term;
      }
      var t := storage.GetTerm(i);
      r := t.value;
    }

    /** Reading above the dummy, storage neither refuses nor runs short. */
    method StoredEntries(lo: nat, hi: nat) returns (r: seq<Entry>)
      requires Wf(storage.Data()) && Base(storage.Data()) < lo < hi <= Last(storage.Data()) + 1
      ensures r == storage.ents[lo - Base(storage.Data())..hi - Base(storage.Data())]
    {
      assert lo in Entries(storage.Data()) by { assert At(storage.ents, lo) == storage.ents[lo - storage.ents[0].index]; }
      var got := storage.GetEntries(lo, hi);
      r := got.value;
    }

    method ReadRange(lo: nat, hi: nat) returns (r: seq<Entry>)
      requires Wf(storage.Data()) && lo < hi <= offset + |ents|
      requires lo < offset ==> Base(storage.Data()) < lo && offset <= Last(storage.Data()) + 1
      ensures r == SliceOf(Data(), lo, hi)
    {
      if hi <= offset {
        r := StoredEntries(lo, hi);
      } else if lo < offset {
        var stored := StoredEntries(lo, offset);
        r := stored + ents[..hi - offset];
      } else {
        r := ents[lo - offset..hi - offset];
      }
    }

    /** Exactly the flat log's entries, never the dummy; too old a start is refused. */
    method Slice(lo: nat, hi: nat) returns (r: Result<seq<Entry>>)
      requires Valid(Data()) && lo <= hi && (lo > Abs(Data()).base ==> hi <= FlatLast(Abs(Data())) + 1)
      ensures lo <= Abs(Data()).base ==> r == Err(Compacted)
      ensures lo > Abs(Data()).base ==> r.Ok? && |r.value| == hi - lo && RunOf(Abs(Data()), lo, r.value)
    {
      var first := GetFirstIndex();
      if lo < first {
        return Err(Compacted);
      }
      ReadsLikeFlat(Data(), 0);
      if lo == hi {
        return Ok([]);
      }
      RangeBounds(Data(), lo, hi);
      var es := ReadRange(lo, hi);
      SliceReadsFlat(Data(), lo, hi);
      return Ok(es);
    }

    /** The index of the first entry that the log does not already have; 0 if it has them all. */
    method FindConflict(es: seq<Entry>) returns (r: nat)
      requires Valid(Data())
      ensures (forall k :: 0 <= k < |es| ==> FlatTerm(Abs(Data()), es[k].index) == es[k].term) ==> r == 0
      ensures (exists k :: 0 <= k < |es| && FlatTerm(Abs(Data()), es[k].index) != es[k].term) ==>
                exists k :: 0 <= k < |es| && es[k].index == r && FlatTerm(Abs(Data()), r) != es[k].term
                            && forall j :: 0 <= j < k ==> FlatTerm(Abs(Data()), es[j].index) == es[j].term
    {
      for k := 0 to |es|
        invariant forall j :: 0 <= j < k ==> FlatTerm(Abs(Data()), es[j].index) == es[j].term
      {
        var t := GetTerm(es[k].index);
        if t != es[k].term {
          return es[k].index;
        }
      }
      return 0;
    }

    method FindConflictByTerm(index: nat, term: nat) returns (r: nat)
      requires Valid(Data())
      ensures r == ConflictByTerm(Abs(Data()), index, term)
    {
      ghost var f := Abs(Data());
      var last := GetLastIndex();
      if index > last {
        return index;
      }
      r := index;
      while true
        invariant r <= index <= FlatLast(f)
        invariant LastAtMost(f, r, term) == LastAtMost(f, index, term)
        decreases r
      {
        var t := GetTerm(r);
        if t <= term {
          break;
        }
        if r == 0 {
          return MAX_UINT64;
        }
        r := r - 1;
      }
    }

    method DoStableTo(i: nat, term: nat)
      modifies this
      ensures Data() == StableTo(old(Data()), i, term)
    {
      if i < offset {
        return;
      }
      if i < offset + |ents| && ents[i - offset].term == term {
        ents := ents[i + 1 - offset..];
        offset := i + 1;
      }
    }

    method DoCommitTo(to: nat)
      requires Valid(Data()) && CommitTo(Data(), to).Some?
      modifies this
      ensures Some(Data()) == CommitTo(old(Data()), to)
    {
      if committed < to {
        committed := to;
      }
    }

    method DoMaybeCommit(to: nat, term: nat) returns (moved: bool)
      requires Valid(Data()) && MaybeCommit(Data(), to, term).Some?
      modifies this
      ensures Some(Data()) == MaybeCommit(old(Data()), to, term)
      ensures moved <==> committed > old(committed)
    {
      ReadsLikeFlat(Data(), to);
      var t := GetTerm(to);
      if to > committed && t == term {
        DoCommitTo(to);
        return true;
      }
      return false;
    }

    method DoRestore(s: Snap)
      modifies this
      ensures Data() == Restore(old(Data()), s)
    {
      committed := s.index;
      offset := s.index + 1;
      ents := [];
      snap := Some(s);
    }

    /** `raft.restore` on a follower named in the snapshot's configuration. */
    method DoRestoreFrom(s: Snap) returns (taken: bool)
      requires Valid(Data()) && RestoreFrom(Data(), s).Some?
      modifies this
      ensures Some(Data()) == RestoreFrom(old(Data()), s)
      ensures taken <==> s.index > old(committed)
    {
      if s.index <= committed {
        return false;
      }
      ReadsLikeFlat(Data(), s.index);
      var t := GetTerm(s.index);
      if t == s.term {
        DoCommitTo(s.index);
      }
      DoRestore(s);
      return true;
    }
  }
}
