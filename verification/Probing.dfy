/**
 The reject-and-probe exchange between a leader and a follower whose logs differ: the
 follower's hint, the leader's reading of it, and where probing ends.
 */
module Probing {
  import opened Basics
  import opened TieredLog
  import opened FlowControl

  /** A log as Raft keeps it: terms never fall along it, and index 0 stands before the first entry. */
  ghost predicate Ordered(f: Flat) {
    FlatTerm(f, 0) == 0 && forall i, j :: 0 <= i <= j <= FlatLast(f) ==> FlatTerm(f, i) <= FlatTerm(f, j)
  }

  /** Both logs still have index i, with the same term there. */
  ghost predicate Common(a: Flat, b: Flat, i: nat) {
    a.base <= i <= FlatLast(a) && b.base <= i <= FlatLast(b) && FlatTerm(a, i) == FlatTerm(b, i)
  }

  /** The follower's reject hint for an append after (index, term). */
  function Hint(follower: Flat, index: nat, term: nat): nat {
    ConflictByTerm(follower, Min(index, FlatLast(follower)), term)
  }

  /** The index the leader takes from the hint. */
  function NextProbe(leader: Flat, hint: nat, hintTerm: nat): nat {
    if hintTerm > 0 then ConflictByTerm(leader, hint, hintTerm) else hint
  }

  /** The leader's record after the follower refused its probe. */
  function AfterReject(leader: Flat, follower: Flat, p: Prog): Prog
    requires p.next >= 1
  {
    var hint := Hint(follower, p.next - 1, FlatTerm(leader, p.next - 1));
    MaybeDecrTo(p, p.next - 1, NextProbe(leader, hint, FlatTerm(follower, hint))).0
  }

  predicate Refuses(leader: Flat, follower: Flat, next: nat)
    requires next >= 1
  {
    FlatTerm(follower, next - 1) != FlatTerm(leader, next - 1)
  }

  /** h is the greatest index at most `index` at which the log has no term above `term`. */
  ghost predicate GreatestAtMost(f: Flat, index: nat, term: nat, h: nat) {
    h <= index && FlatTerm(f, h) <= term && forall k :: h < k <= index ==> FlatTerm(f, k) > term
  }

  /** The hint is the follower's greatest index, within its log and not after the refused one, whose term is not
      above the refused one's; the leader reads it as its own greatest index, not after the hint, whose term is
      not above the hint's. */
  lemma HintsExact(leader: Flat, follower: Flat, index: nat)
    requires Ordered(leader) && Ordered(follower) && index <= FlatLast(leader)
    ensures var term := FlatTerm(leader, index);
            var hint := Hint(follower, index, term);
            && GreatestAtMost(follower, Min(index, FlatLast(follower)), term, hint)
            && (FlatTerm(follower, hint) > 0 ==>
                  GreatestAtMost(leader, hint, FlatTerm(follower, hint), NextProbe(leader, hint, FlatTerm(follower, hint))))
            && (FlatTerm(follower, hint) == 0 ==> NextProbe(leader, hint, 0) == hint)
  {
  }

  /** The hint passes over no index the logs have in common. */
  lemma HintSkipsNothing(leader: Flat, follower: Flat, index: nat, j: nat)
    requires Ordered(leader) && Ordered(follower) && index <= FlatLast(leader)
    requires Hint(follower, index, FlatTerm(leader, index)) < j <= index
    ensures !Common(leader, follower, j)
  {
  }

  /** Neither does the leader's reading of it. */
  lemma ReadingSkipsNothing(leader: Flat, follower: Flat, hint: nat, j: nat)
    requires Ordered(leader) && Ordered(follower) && hint <= FlatLast(follower) && hint <= FlatLast(leader)
    requires NextProbe(leader, hint, FlatTerm(follower, hint)) < j <= hint
    ensures !Common(leader, follower, j)
  {
  }

  /** Next, a 64-bit number, is at most one past the leader's last index. */
  predicate InReach(leader: Flat, next: nat) {
    1 <= next <= FlatLast(leader) + 1 && next <= MAX_UINT64
  }

  /** A refusal lowers Next, and no index between the new probe and the refused one is common. */
  lemma RejectSkipsNoMatch(leader: Flat, follower: Flat, p: Prog, j: nat)
    requires Ordered(leader) && Ordered(follower)
    requires p.mode == Probe && InReach(leader, p.next) && Refuses(leader, follower, p.next)
    ensures 1 <= AfterReject(leader, follower, p).next < p.next
    ensures AfterReject(leader, follower, p).next - 1 < j <= p.next - 1 ==> !Common(leader, follower, j)
    ensures !AfterReject(leader, follower, p).probeSent
  {
    var hint := Hint(follower, p.next - 1, FlatTerm(leader, p.next - 1));
    var probe := NextProbe(leader, hint, FlatTerm(follower, hint));
    if AfterReject(leader, follower, p).next - 1 < j < p.next - 1 {
      if j > hint {
        HintSkipsNothing(leader, follower, p.next - 1, j);
      } else {
        ReadingSkipsNothing(leader, follower, hint, j);
      }
    }
  }

  /** The record when probing ends, that is when the follower no longer refuses. */
  ghost function Settled(leader: Flat, follower: Flat, p: Prog): Prog
    requires Ordered(leader) && Ordered(follower) && p.mode == Probe && InReach(leader, p.next)
    decreases p.next
  {
    if !Refuses(leader, follower, p.next) then p
    else
      RejectSkipsNoMatch(leader, follower, p, 0);
      Settled(leader, follower, AfterReject(leader, follower, p))
  }

  /** The number of refusals on the way. */
  ghost function Refusals(leader: Flat, follower: Flat, p: Prog): nat
    requires Ordered(leader) && Ordered(follower) && p.mode == Probe && InReach(leader, p.next)
    decreases p.next
  {
    if !Refuses(leader, follower, p.next) then 0
    else
      RejectSkipsNoMatch(leader, follower, p, 0);
      1 + Refusals(leader, follower, AfterReject(leader, follower, p))
  }

  /** Probing ends after at most Next - 1 refusals, at an index the follower accepts, and with every common
      index that lay within reach still within reach. */
  lemma {:induction false} ProbingConverges(leader: Flat, follower: Flat, p: Prog, j: nat)
    requires Ordered(leader) && Ordered(follower) && p.mode == Probe && InReach(leader, p.next)
    ensures var q := Settled(leader, follower, p);
            && 1 <= q.next <= p.next && !Refuses(leader, follower, q.next)
            && Refusals(leader, follower, p) + q.next <= p.next
            && (Common(leader, follower, j) && j <= p.next - 1 ==> j <= q.next - 1)
    decreases p.next
  {
    if Refuses(leader, follower, p.next) {
      RejectSkipsNoMatch(leader, follower, p, j);
      ProbingConverges(leader, follower, AfterReject(leader, follower, p), j);
    }
  }

  /** Entries carry positive terms. */
  ghost predicate Positive(f: Flat) {
    forall i :: 1 <= i && f.base <= i <= FlatLast(f) ==> FlatTerm(f, i) > 0
  }

  /** The logs have an index in common within reach iff probing ends at one, and it is then the greatest. */
  lemma ProbingFindsGreatest(leader: Flat, follower: Flat, p: Prog)
    requires Ordered(leader) && Ordered(follower) && Positive(leader) && Positive(follower)
    requires p.mode == Probe && InReach(leader, p.next)
    ensures var r := Settled(leader, follower, p).next - 1;
            && 0 <= r <= p.next - 1
            && ((exists j :: 0 <= j <= p.next - 1 && Common(leader, follower, j)) <==> Common(leader, follower, r))
            && (forall j :: 0 <= j <= p.next - 1 && Common(leader, follower, j) ==> j <= r)
  {
    ProbingConverges(leader, follower, p, 0);
    forall j | 0 <= j <= p.next - 1 && Common(leader, follower, j)
      ensures j <= Settled(leader, follower, p).next - 1
    {
      ProbingConverges(leader, follower, p, j);
    }
  }

  /** The term that the leader names in its probe. */
  function ProbeTerm(leader: Flat, p: Prog): nat
    requires p.next >= 1
  {
    FlatTerm(leader, p.next - 1)
  }

  /** After a refusal the leader's next probe is accepted, or is of an earlier term of its log, or is before the
      follower's log: within that log a term is probed at most once. */
  lemma ProbesEarlierTerm(leader: Flat, follower: Flat, p: Prog)
    requires Ordered(leader) && Ordered(follower) && Positive(leader) && Positive(follower)
    requires p.mode == Probe && InReach(leader, p.next) && Refuses(leader, follower, p.next)
    requires follower.base <= p.next - 1
    ensures var q := AfterReject(leader, follower, p);
            && 1 <= q.next
            && (Refuses(leader, follower, q.next) && follower.base <= q.next - 1 ==> ProbeTerm(leader, q) < ProbeTerm(leader, p))
  {
    var x := p.next - 1;
    HintsExact(leader, follower, x);
    RejectSkipsNoMatch(leader, follower, p, 0);
  }

  /** The terms of the leader's log up to an index. */
  ghost function TermsUpTo(f: Flat, index: nat): set<nat> {
    set i | 0 <= i <= index :: FlatTerm(f, i)
  }

  lemma TermsCounted(f: Flat, i: nat, j: nat)
    requires Ordered(f) && i <= j <= FlatLast(f)
    ensures |TermsUpTo(f, j)| >= 1
    ensures FlatTerm(f, i) < FlatTerm(f, j) ==> |TermsUpTo(f, i)| + 1 <= |TermsUpTo(f, j)|
  {
    var before, now, t := TermsUpTo(f, i), TermsUpTo(f, j), FlatTerm(f, j);
    SubsetSize({t}, now);
    if FlatTerm(f, i) < t {
      assert t !in before;
      SubsetSize(before + {t}, now);
    }
  }

  lemma RefusalsBelow(leader: Flat, follower: Flat, p: Prog)
    requires Ordered(leader) && Ordered(follower) && p.mode == Probe && InReach(leader, p.next)
    ensures Refusals(leader, follower, p) <= p.next - 1
  {
    ProbingConverges(leader, follower, p, 0);
  }

  /** One refusal within the follower's log, and what it leaves to be probed. */
  lemma RefusalCounted(leader: Flat, follower: Flat, p: Prog)
    requires Ordered(leader) && Ordered(follower) && Positive(leader) && Positive(follower)
    requires p.mode == Probe && InReach(leader, p.next) && Refuses(leader, follower, p.next) && follower.base <= p.next - 1
    ensures var q := AfterReject(leader, follower, p);
            && q.mode == Probe && q.next < p.next && InReach(leader, q.next)
            && Refusals(leader, follower, p) == 1 + Refusals(leader, follower, q)
            && |TermsUpTo(leader, p.next - 1)| >= 1
            && (Refuses(leader, follower, q.next) && follower.base <= q.next - 1 ==>
                  |TermsUpTo(leader, q.next - 1)| + 1 <= |TermsUpTo(leader, p.next - 1)|)
  {
    RejectSkipsNoMatch(leader, follower, p, 0);
    ProbesEarlierTerm(leader, follower, p);
    TermsCounted(leader, AfterReject(leader, follower, p).next - 1, p.next - 1);
  }

  /** So there are no more refusals than terms in the leader's log up to the first probe, and entries that the
      follower has compacted away. */
  lemma {:induction false} RefusalsPerTerm(leader: Flat, follower: Flat, p: Prog)
    requires Ordered(leader) && Ordered(follower) && Positive(leader) && Positive(follower)
    requires p.mode == Probe && InReach(leader, p.next)
    ensures Refusals(leader, follower, p) <= |TermsUpTo(leader, p.next - 1)| + follower.base
    decreases p.next
  {
    if p.next - 1 < follower.base {
      RefusalsBelow(leader, follower, p);
    } else if Refuses(leader, follower, p.next) {
      RefusalCounted(leader, follower, p);
      var q := AfterReject(leader, follower, p);
      if q.next - 1 < follower.base {
        RefusalsBelow(leader, follower, q);
      } else if Refuses(leader, follower, q.next) {
        RefusalsPerTerm(leader, follower, q);
      }
    }
  }

  /** The follower's side of a refusal, on the log it keeps. */
  method Refuse(log: RaftLog, index: nat, term: nat) returns (hint: nat, hintTerm: nat)
    requires Valid(log.Data())
    ensures hint == Hint(Abs(log.Data()), index, term) && hintTerm == FlatTerm(Abs(log.Data()), hint)
  {
    var last := log.GetLastIndex();
    hint := log.FindConflictByTerm(if index > last then last else index, term);
    hintTerm := log.GetTerm(hint);
  }

  /** The leader's reading of it. */
  method ReadHint(log: RaftLog, hint: nat, hintTerm: nat) returns (probe: nat)
    requires Valid(log.Data())
    ensures probe == NextProbe(Abs(log.Data()), hint, hintTerm)
  {
    probe := hint;
    if hintTerm > 0 {
      probe := log.FindConflictByTerm(hint, hintTerm);
    }
  }
}
