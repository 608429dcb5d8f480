/**
 The leader's view of one follower: the progress record, its three states, and how replies,
 rejections and sends move the replication window.
 */
module FlowControl {
  import opened Basics
  import opened InflightRing

  datatype Mode = Probe | Replicate | Snapshot

  datatype Prog = Prog(matched: nat, next: nat, mode: Mode, pending: nat,
                       active: bool, probeSent: bool, size: nat, window: seq<nat>)

  function ResetState(p: Prog, mode: Mode): Prog {
    p.(probeSent := false, pending := 0, mode := mode, window := [])
  }

  function BecomeProbe(p: Prog): Prog {
    if p.mode == Snapshot then ResetState(p, Probe).(next := Max(p.matched + 1, p.pending + 1))
    else ResetState(p, Probe).(next := p.matched + 1)
  }

  function BecomeReplicate(p: Prog): Prog {
    ResetState(p, Replicate).(next := p.matched + 1)
  }

  function BecomeSnapshot(p: Prog, index: nat): Prog {
    ResetState(p, Snapshot).(pending := index)
  }

  function MaybeUpdate(p: Prog, n: nat): (Prog, bool) {
    var q := if p.matched < n then p.(matched := n, probeSent := false) else p;
    (q.(next := Max(p.next, n + 1)), p.matched < n)
  }

  function MaybeDecrTo(p: Prog, rejected: nat, hint: nat): (Prog, bool) {
    if p.mode == Replicate then
      if rejected <= p.matched then (p, false) else (p.(next := p.matched + 1), true)
    else if p.next - 1 != rejected then (p, false)
    else (p.(next := Max(Min(rejected, Successor(hint)), 1), probeSent := false), true)
  }

  predicate IsPaused(p: Prog) {
    match p.mode
    case Probe => p.probeSent
    case Replicate => |p.window| == p.size
    case Snapshot => true
  }

  // ---------------------------------------------------------------------------
  // Sending
  // ---------------------------------------------------------------------------

  datatype Outcome = Quiet | Sent(prog: Prog) | Panics

  /** What sending does: `Panics` stands for the three panics of the send path, namely a snapshot that is
      always taken for empty, a full window, and a state in which nothing may be sent. */
  function MaybeSend(p: Prog, first: nat, last: nat, sendIfEmpty: bool): Outcome {
    if IsPaused(p) then Quiet
    else
      var failed := p.next <= last && p.next < first;
      var entries := if p.next <= last && !failed then last + 1 - p.next else 0;
      if entries == 0 && !sendIfEmpty then Quiet
      else if failed then (if p.active then Panics else Quiet)
      else if entries == 0 then Sent(p)
      else match p.mode
           case Replicate => if |p.window| >= p.size then Panics else Sent(p.(next := last + 1, window := p.window + [last]))
           case Probe => Sent(p.(probeSent := true))
           case Snapshot => Panics
  }

  ghost function Drained(p: Prog, first: nat, last: nat): Prog {
    var r := MaybeSend(p, first, last, false);
    if r.Sent? then r.prog else p
  }

  /** While replicating, the indexes in flight ascend strictly between what is matched and what is next. */
  ghost predicate Window(p: Prog) {
    && p.next >= 1 && p.size >= 1 && |p.window| <= p.size
    && (p.mode != Replicate ==> p.window == [])
    && (p.mode == Replicate ==>
          && p.matched < p.next
          && Increasing(p.window)
          && (forall a :: 0 <= a < |p.window| ==> p.matched < p.window[a] < p.next))
  }

  /** Of the three panics only the snapshot can happen, exactly when a recently active follower that is not
      paused needs entries the leader compacted away. */
  lemma SendPanicsIff(p: Prog, first: nat, last: nat, sendIfEmpty: bool)
    requires Window(p)
    ensures MaybeSend(p, first, last, sendIfEmpty).Panics?
            <==> sendIfEmpty && !IsPaused(p) && p.active && p.next < first && p.next <= last
  {
  }

  lemma QuietSendsNeverPanic(p: Prog, first: nat, last: nat)
    requires Window(p)
    ensures !MaybeSend(p, first, last, false).Panics?
    ensures MaybeSend(p, first, last, false).Sent? ==>
              MaybeSend(MaybeSend(p, first, last, false).prog, first, last, false) == Quiet
  {
  }

  lemma SendKeepsWindow(p: Prog, first: nat, last: nat, sendIfEmpty: bool)
    requires Window(p) && MaybeSend(p, first, last, sendIfEmpty).Sent?
    ensures var q := MaybeSend(p, first, last, sendIfEmpty).prog;
            Window(q) && q.matched == p.matched && q.mode == p.mode && q.next >= p.next
  {
  }

  // ---------------------------------------------------------------------------
  // Every leader step
  // ---------------------------------------------------------------------------

  /** What the leader does about this follower, its log running from `first` to `last`. */
  datatype Event =
    | Accepted(index: nat, committed: bool, first: nat, last: nat)
    | Rejected(index: nat, hint: nat, first: nat, last: nat)
    | HeartbeatAnswered(first: nat, last: nat)
    | Unreachable(first: nat, last: nat)
    | Broadcast(first: nat, last: nat)

  /** The record once the reply has been taken in, before anything is sent. */
  function TakeIn(p: Prog, e: Event): Prog {
    match e
    case Accepted(index, _, _, _) =>
      var (q, updated) := MaybeUpdate(p.(active := true), index);
      if !updated then q
      else if q.mode == Probe then BecomeReplicate(q)
      else if q.mode == Replicate then q.(window := DropLE(q.window, index))
      else if q.matched >= q.pending then BecomeReplicate(BecomeProbe(q))
      else q
    case Rejected(index, hint, _, _) =>
      var (q, changed) := MaybeDecrTo(p.(active := true), index, hint);
      if changed && q.mode == Replicate then BecomeProbe(q) else q
    case HeartbeatAnswered(_, _) =>
      var q := p.(active := true, probeSent := false);
      if q.mode == Replicate && |q.window| == q.size && q.window != []
      then q.(window := DropLE(q.window, q.window[0])) else q
    case Unreachable(_, _) => if p.mode == Replicate then BecomeProbe(p) else p
    case Broadcast(_, _) => p
  }

  /** Whether a send that goes out even without entries follows, and whether sends until quiet follow. */
  predicate Answers(p: Prog, e: Event) {
    match e
    case Accepted(index, committed, _, _) => p.matched < index && (committed || IsPaused(p))
    case Rejected(index, hint, _, _) => MaybeDecrTo(p, index, hint).1
    case HeartbeatAnswered(_, last) => p.matched < last
    case Unreachable(_, _) => false
    case Broadcast(_, _) => true
  }

  ghost function SendOne(p: Prog, e: Event): Outcome {
    MaybeSend(p, e.first, e.last, true)
  }

  ghost function Apply(p: Prog, e: Event): Outcome {
    var q := TakeIn(p, e);
    var r := if Answers(p, e) then SendOne(q, e) else Quiet;
    if r.Panics? then Panics
    else
      var s := if r.Sent? then r.prog else q;
      Sent(if e.Accepted? && p.matched < e.index then Drained(s, e.first, e.last) else s)
  }

  /** Freeing the front of the window keeps it in order, and above whatever was freed. */
  lemma FreeingKeepsWindow(p: Prog, to: nat)
    requires Window(p) && p.mode == Replicate
    ensures var d := DropLE(p.window, to);
            |d| <= |p.window| && Increasing(d) && forall a :: 0 <= a < |d| ==> Max(p.matched, to) < d[a] < p.next
  {
    DropLEExact(p.window, to);
    var d := DropLE(p.window, to);
    forall a | 0 <= a < |d| ensures Max(p.matched, to) < d[a] < p.next {
      assert d[a] in d;
    }
  }

  lemma TakeInKeepsWindow(p: Prog, e: Event)
    requires Window(p)
    ensures Window(TakeIn(p, e)) && p.matched <= TakeIn(p, e).matched
  {
    if e.Accepted? && p.mode == Replicate {
      FreeingKeepsWindow(p, e.index);
    } else if e.HeartbeatAnswered? && p.mode == Replicate && p.window != [] {
      FreeingKeepsWindow(p, p.window[0]);
    }
  }

  /** A step panics exactly when it answers a recently active follower that is not paused and needs entries
      the leader compacted away.  It answers every broadcast, every rejection that counts, a heartbeat's reply
      from a follower that is behind, and a new acknowledgement that commits something or ends a pause. */
  lemma StepPanicsIff(p: Prog, e: Event)
    requires Window(p)
    ensures var q := TakeIn(p, e);
            var answers := match e
              case Accepted(index, committed, _, _) => index > p.matched && (committed || IsPaused(p))
              case Rejected(index, _, _, _) => if p.mode == Replicate then index > p.matched else index == p.next - 1
              case HeartbeatAnswered(_, last) => last > p.matched
              case Unreachable(_, _) => false
              case Broadcast(_, _) => true;
            Apply(p, e).Panics? <==> answers && !IsPaused(q) && q.active && q.next < e.first && q.next <= e.last
  {
    TakeInKeepsWindow(p, e);
    SendPanicsIff(TakeIn(p, e), e.first, e.last, true);
  }

  /** What is sent after a reply was taken in leaves Match and the mode alone and does not lower Next. */
  lemma SendsAfterwards(p: Prog, e: Event)
    requires Window(p) && !Apply(p, e).Panics?
    ensures var (q, o) := (TakeIn(p, e), Apply(p, e));
            o.Sent? && Window(o.prog) && o.prog.matched == q.matched && o.prog.mode == q.mode && o.prog.next >= q.next
  {
    TakeInKeepsWindow(p, e);
    var q := TakeIn(p, e);
    var r := if Answers(p, e) then SendOne(q, e) else Quiet;
    if r.Sent? { SendKeepsWindow(q, e.first, e.last, true); }
    var s := if r.Sent? then r.prog else q;
    QuietSendsNeverPanic(s, e.first, e.last);
    if MaybeSend(s, e.first, e.last, false).Sent? { SendKeepsWindow(s, e.first, e.last, false); }
  }

  /** Every step that does not panic keeps the window and never lowers Match. */
  lemma StepKeepsWindow(p: Prog, e: Event)
    requires Window(p) && !Apply(p, e).Panics?
    ensures Apply(p, e).Sent? && Window(Apply(p, e).prog) && p.matched <= Apply(p, e).prog.matched
  {
    TakeInKeepsWindow(p, e);
    SendsAfterwards(p, e);
  }

  /** The states of a run, one per event, that does not panic. */
  ghost predicate Run(states: seq<Prog>, es: seq<Event>) {
    |states| == |es| + 1 && forall k :: 0 <= k < |es| ==> Apply(states[k], es[k]) == Sent(states[k + 1])
  }

  /** At every point of every run the window is well formed, and Match has not fallen. */
  lemma {:induction false} WindowForever(states: seq<Prog>, es: seq<Event>, i: nat, j: nat)
    requires Run(states, es) && Window(states[0]) && i <= j <= |es|
    ensures Window(states[j]) && states[i].matched <= states[j].matched
  {
    if i < j {
      var k := j - 1;
      WindowForever(states, es, i, k);
      assert Apply(states[k], es[k]) == Sent(states[k + 1]);
      StepKeepsWindow(states[k], es[k]);
    } else if j > 0 {
      WindowForever(states, es, j - 1, j);
    }
  }

  // ---------------------------------------------------------------------------
  // What a step achieves
  // ---------------------------------------------------------------------------

  /** The index that the event reports as held by the follower; 0 reports nothing. */
  function Acknowledged(e: Event): nat {
    if e.Accepted? then e.index else 0
  }

  /** An acknowledgement is recorded: Match is the greater of what it was and what is acknowledged, and Next
      is above what is acknowledged.  Nothing else moves Match. */
  lemma AcknowledgementRecorded(p: Prog, e: Event)
    requires Window(p) && Apply(p, e).Sent?
    ensures Apply(p, e).prog.matched == Max(p.matched, Acknowledged(e))
    ensures e.Accepted? ==> Apply(p, e).prog.next > e.index
  {
    SendsAfterwards(p, e);
  }

  ghost function MostAcknowledged(es: seq<Event>): nat {
    if es == [] then 0 else Max(MostAcknowledged(es[..|es| - 1]), Acknowledged(es[|es| - 1]))
  }

  lemma {:induction false} MostIsGreatest(es: seq<Event>) returns (w: nat)
    ensures forall k :: 0 <= k < |es| ==> Acknowledged(es[k]) <= MostAcknowledged(es)
    ensures es != [] ==> w < |es| && Acknowledged(es[w]) == MostAcknowledged(es)
  {
    w := 0;
    if es != [] {
      w := MostIsGreatest(es[..|es| - 1]);
      if |es| == 1 || Acknowledged(es[w]) < Acknowledged(es[|es| - 1]) {
        w := |es| - 1;
      }
    }
  }

  lemma {:induction false} MatchIsMost(states: seq<Prog>, es: seq<Event>, k: nat)
    requires Run(states, es) && Window(states[0]) && k <= |es|
    ensures Window(states[k]) && states[k].matched == Max(states[0].matched, MostAcknowledged(es[..k]))
  {
    if k > 0 {
      var i := k - 1;
      MatchIsMost(states, es, i);
      assert Apply(states[i], es[i]) == Sent(states[i + 1]);
      StepKeepsWindow(states[i], es[i]);
      AcknowledgementRecorded(states[i], es[i]);
      assert es[..k][..i] == es[..i];
    }
  }

  /** After every run Match is the greatest index acknowledged so far, or where it began. */
  lemma MatchIsGreatest(states: seq<Prog>, es: seq<Event>)
    requires Run(states, es) && Window(states[0])
    ensures states[|es|].matched == Max(states[0].matched, MostAcknowledged(es))
    ensures forall k :: 0 <= k < |es| ==> Acknowledged(es[k]) <= MostAcknowledged(es)
    ensures es != [] ==> exists k :: 0 <= k < |es| && Acknowledged(es[k]) == MostAcknowledged(es)
  {
    var w := MostIsGreatest(es);
    MatchIsMost(states, es, |es|);
    assert es[..|es|] == es;
  }

  /** The follower is known to have lost what was sent. */
  predicate Loses(p: Prog, e: Event) {
    e.Unreachable? || (e.Rejected? && e.index > p.matched)
  }

  /** A new acknowledgement that ends probing, or makes the pending snapshot unnecessary. */
  predicate Recovers(p: Prog, e: Event) {
    e.Accepted? && e.index > p.matched && (p.mode == Probe || (p.mode == Snapshot && e.index >= p.pending))
  }

  /** How the mode moves: replication ends exactly with a loss, and then Next goes back to just after Match with
      nothing in flight; it begins exactly with a recovery, from just after the acknowledged index. */
  lemma ModeMoves(p: Prog, e: Event)
    requires Window(p) && Apply(p, e).Sent?
    ensures var (q, r) := (TakeIn(p, e), Apply(p, e).prog);
            && r.mode == q.mode
            && (q.mode == Replicate <==> (p.mode == Replicate && !Loses(p, e)) || Recovers(p, e))
            && (q.mode == Snapshot <==> p.mode == Snapshot && !Recovers(p, e))
            && (p.mode == Replicate && Loses(p, e) ==> q.next == p.matched + 1 && q.window == [] && !q.probeSent)
            && (Recovers(p, e) ==> q.next == e.index + 1 && q.window == [] && q.pending == 0)
  {
    SendsAfterwards(p, e);
  }

  /** In flight is what was in flight, less what an acknowledgement covers or, if the window was full, what a
      heartbeat's answer frees up to its first index; a loss leaves nothing. */
  lemma InFlightExact(p: Prog, e: Event, x: nat)
    requires Window(p) && p.mode == Replicate
    ensures x in TakeIn(p, e).window <==>
              && x in p.window && !Loses(p, e)
              && (e.Accepted? && e.index > p.matched ==> x > e.index)
              && (e.HeartbeatAnswered? && |p.window| == p.size ==> x > p.window[0])
  {
    if e.Accepted? {
      DropLEExact(p.window, e.index);
    } else if e.HeartbeatAnswered? && p.window != [] {
      DropLEExact(p.window, p.window[0]);
    }
  }

  /** A follower that answers, in any way that is news, can be sent to again unless a snapshot is on its way:
      a heartbeat's answer lifts every other pause, a refusal of the probe and a new acknowledgement that of a
      probe; and whoever answers counts as active. */
  lemma AnswerLiftsPause(p: Prog, e: Event)
    requires Window(p)
    ensures e.HeartbeatAnswered? && p.mode != Snapshot ==> !IsPaused(TakeIn(p, e))
    ensures p.mode == Probe && (e.Accepted? || e.Rejected?) && Answers(p, e) ==> !IsPaused(TakeIn(p, e))
    ensures p.mode == Probe && Recovers(p, e) ==> !IsPaused(TakeIn(p, e))
    ensures e.Accepted? && e.index > p.matched ==> !TakeIn(p, e).probeSent
    ensures TakeIn(p, e).active <==> p.active || e.Accepted? || e.Rejected? || e.HeartbeatAnswered?
  {
    if e.HeartbeatAnswered? && p.mode == Replicate && p.window != [] {
      DropLEExact(p.window, p.window[0]);
      assert p.window[0] !in DropLE(p.window, p.window[0]);
    }
  }

  /** After a step that sends at all, nothing that can be sent is left: the follower is paused, or has been
      sent the log's last entry, or needs entries the leader compacted away. */
  lemma NothingLeftUnsent(p: Prog, e: Event)
    requires Window(p) && Apply(p, e).Sent? && (Answers(p, e) || (e.Accepted? && p.matched < e.index))
    ensures var r := Apply(p, e).prog; IsPaused(r) || r.next > e.last || r.next < e.first
  {
    TakeInKeepsWindow(p, e);
  }

  /** Sending moves Next and the window together: in replication the last entry's index goes into the window
      and Next just after it; in a probe neither moves, and one probe is outstanding. */
  lemma SendingExact(p: Prog, e: Event)
    requires Window(p) && Apply(p, e).Sent?
    ensures var (q, r) := (TakeIn(p, e), Apply(p, e).prog);
            && (r.next != q.next ==> q.mode == Replicate && q.next <= e.last && r.next == e.last + 1)
            && r.window == (if r.next != q.next then q.window + [e.last] else q.window)
            && (q.probeSent ==> r.probeSent)
            && (r.probeSent && !q.probeSent ==> q.mode == Probe && e.first <= q.next <= e.last)
  {
    TakeInKeepsWindow(p, e);
  }

  /** With this Next, above 1, the probe is neither the refused entry nor beyond the hint. */
  predicate Within(next: nat, e: Event)
    requires e.Rejected?
  {
    next > 1 ==> next <= e.index && next - 1 <= e.hint
  }

  /** Outside replication a rejection counts only for the outstanding probe, the entry before Next.  Next is
      then the greatest from 1 on that keeps the probe below the refused entry and within the hint, or 1 if the
      hint wraps, and another probe may be sent. */
  lemma RejectionExact(p: Prog, e: Event)
    requires Window(p) && e.Rejected? && p.mode != Replicate
    ensures var q := TakeIn(p, e);
            if e.index != p.next - 1 then q == p.(active := true)
            else
              && q == p.(active := true, probeSent := false, next := q.next)
              && (e.hint == MAX_UINT64 ==> q.next == 1)
              && (e.hint != MAX_UINT64 ==> 1 <= q.next && Within(q.next, e) && forall n :: 1 <= n && Within(n, e) ==> n <= q.next)
  {
  }

  /** Probing resumes at the least index above everything matched and everything in a pending snapshot. */
  lemma ProbeResumes(p: Prog)
    ensures var q := BecomeProbe(p);
            && q.mode == Probe && !IsPaused(q) && q.matched == p.matched
            && q.next > p.matched && (p.mode == Snapshot ==> q.next > p.pending)
            && (q.next == p.matched + 1 || (p.mode == Snapshot && q.next == p.pending + 1))
  {
  }

  /** A follower that is being sent a snapshot stays paused through everything but an acknowledgement that
      reaches the snapshot. */
  lemma SnapshotEnds(p: Prog, index: nat, e: Event)
    requires Window(p)
    ensures var q := BecomeSnapshot(p, index);
            && Window(q) && IsPaused(q) && q.matched == p.matched
            && (TakeIn(q, e).mode == Snapshot && IsPaused(TakeIn(q, e))
                <==> !(e.Accepted? && e.index > p.matched && e.index >= index))
  {
  }

  /** Outside replication Next may be put at or below Match: a rejection of the outstanding probe keeps
      Next above Match iff nothing is matched, or the probe was above Match and the hint is not below it and
      does not wrap. */
  lemma ProbeKeepsOrderIff(p: Prog, rejected: nat, hint: nat)
    requires p.mode != Replicate && p.next == rejected + 1 && p.matched < p.next
    ensures MaybeDecrTo(p, rejected, hint).0.next > p.matched
            <==> p.matched == 0 || (rejected > p.matched && hint >= p.matched && hint != MAX_UINT64)
  {
  }

  // ---------------------------------------------------------------------------
  // The mutable record
  // ---------------------------------------------------------------------------

  class Progress {
    var matched: nat
    var next: nat
    var mode: Mode
    var pending: nat
    var active: bool
    var probeSent: bool
    const inflights: Inflights

    ghost predicate Valid()
      reads this, inflights
    {
      inflights.Valid()
    }

    ghost function Data(): Prog
      requires Valid()
      reads this, inflights, inflights.buffer
    {
      Prog(matched, next, mode, pending, active, probeSent, inflights.size, inflights.Contents())
    }

    constructor (next: nat, size: nat)
      ensures Valid() && fresh(inflights) && fresh(inflights.buffer)
      ensures Data() == Prog(0, next, Probe, 0, false, false, size, [])
    {
      matched, this.next, mode, pending, active, probeSent := 0, next, Probe, 0, false, false;
      inflights := new Inflights(size);
    }

    method ResetTo(to: Mode)
      requires Valid()
      modifies this, inflights
      ensures Valid() && inflights.buffer == old(inflights.buffer) && Data() == ResetState(old(Data()), to)
    {
      probeSent := false;
      pending := 0;
      mode := to;
      inflights.Reset();
    }

    method ToProbe()
      requires Valid()
      modifies this, inflights
      ensures Valid() && inflights.buffer == old(inflights.buffer) && Data() == BecomeProbe(old(Data()))
    {
      if mode == Snapshot {
        var pendingSnapshot := pending;
        ResetTo(Probe);
        next := Max(matched + 1, pendingSnapshot + 1);
      } else {
        ResetTo(Probe);
        next := matched + 1;
      }
    }

    method ToReplicate()
      requires Valid()
      modifies this, inflights
      ensures Valid() && inflights.buffer == old(inflights.buffer) && Data() == BecomeReplicate(old(Data()))
    {
      ResetTo(Replicate);
      next := matched + 1;
    }

    method ToSnapshot(index: nat)
      requires Valid()
      modifies this, inflights
      ensures Valid() && inflights.buffer == old(inflights.buffer) && Data() == BecomeSnapshot(old(Data()), index)
    {
      ResetTo(Snapshot);
      pending := index;
    }

    method Update(n: nat) returns (updated: bool)
      requires Valid()
      modifies this
      ensures Valid() && (Data(), updated) == MaybeUpdate(old(Data()), n)
    {
      updated := false;
      if matched < n {
        matched := n;
        updated := true;
        probeSent := false;
      }
      next := Max(next, n + 1);
    }

    method DecrTo(rejected: nat, hint: nat) returns (changed: bool)
      requires Valid()
      modifies this
      ensures Valid() && (Data(), changed) == MaybeDecrTo(old(Data()), rejected, hint)
    {
      if mode == Replicate {
        if rejected <= matched {
          return false;
        }
        next := matched + 1;
        return true;
      }
      if next - 1 != rejected {
        return false;
      }
      next := Max(Min(rejected, Successor(hint)), 1);
      probeSent := false;
      return true;
    }

    method Paused() returns (r: bool)
      requires Valid()
      ensures r == IsPaused(Data())
    {
      match mode {
        case Probe => r := probeSent;
        case Replicate => r := inflights.Full();
        case Snapshot => r := true;
      }
    }

    /** `maybeSendAppend` for this follower, the leader's log running from `first` to `last`. */
    method Send(first: nat, last: nat, sendIfEmpty: bool) returns (sent: bool)
      requires Valid() && !MaybeSend(Data(), first, last, sendIfEmpty).Panics?
      modifies this, inflights, inflights.buffer
      ensures Valid() && (inflights.buffer == old(inflights.buffer) || fresh(inflights.buffer))
      ensures MaybeSend(old(Data()), first, last, sendIfEmpty) == if sent then Sent(Data()) else Quiet
      ensures !sent ==> Data() == old(Data())
    {
      var paused := Paused();
      if paused {
        return false;
      }
      var failed := next <= last && next < first;
      var entries := if next <= last && !failed then last + 1 - next else 0;
      if entries == 0 && !sendIfEmpty {
        return false;
      }
      if failed {
        return false;
      }
      if entries != 0 {
        if mode == Replicate {
          next := last + 1;
          inflights.Add(last);
        } else {
          probeSent := true;
        }
      }
      return true;
    }

    /** The leader's handling of a reply, a rejection, an unreachable follower or a broadcast. */
    method TakeInReply(e: Event)
      requires Valid() && Window(Data())
      modifies this, inflights
      ensures Valid() && inflights.buffer == old(inflights.buffer) && Data() == TakeIn(old(Data()), e)
    {
      match e {
        case Accepted(index, _, _, _) =>
          active := true;
          var updated := Update(index);
          if updated {
            if mode == Probe {
              ToReplicate();
            } else if mode == Snapshot && matched >= pending {
              ToProbe();
              ToReplicate();
            } else if mode == Replicate {
              inflights.FreeLE(index);
            }
          }
        case Rejected(index, hint, _, _) =>
          active := true;
          var changed := DecrTo(index, hint);
          if changed && mode == Replicate {
            ToProbe();
          }
        case HeartbeatAnswered(_, _) =>
          active := true;
          probeSent := false;
          if mode == Replicate && inflights.Full() {
            inflights.FreeFirstOne();
          }
        case Unreachable(_, _) =>
          if mode == Replicate {
            ToProbe();
          }
        case Broadcast(_, _) =>
      }
    }

    /** The leader's `for r.maybeSendAppend(...) {}` after an accepted append: it ends, after one send at most. */
    method SendAll(first: nat, last: nat) returns (rounds: nat)
      requires Valid() && Window(Data())
      modifies this, inflights, inflights.buffer
      ensures Valid() && Data() == Drained(old(Data()), first, last)
      ensures rounds <= 1
    {
      QuietSendsNeverPanic(Data(), first, last);
      var more := Send(first, last, false);
      rounds := 0;
      while more
        invariant Valid() && (inflights.buffer == old(inflights.buffer) || fresh(inflights.buffer))
        invariant Data() == Drained(old(Data()), first, last)
        invariant rounds <= 1 && (more ==> rounds == 0 && MaybeSend(Data(), first, last, false) == Quiet)
        decreases more
      {
        rounds := rounds + 1;
        more := Send(first, last, false);
      }
    }

    /** One whole leader step about this follower. */
    method Handle(e: Event)
      requires Valid() && Window(Data()) && !Apply(Data(), e).Panics?
      modifies this, inflights, inflights.buffer
      ensures Valid() && Window(Data()) && Sent(Data()) == Apply(old(Data()), e)
    {
      ghost var p := Data();
      StepKeepsWindow(p, e);
      TakeInKeepsWindow(p, e);
      var wasMatched := matched;
      var wasPaused := Paused();
      var lowers := e.Rejected? && (if mode == Replicate then e.index > matched else next - 1 == e.index);
      TakeInReply(e);
      var answer := match e
        case Accepted(index, committed, _, _) => wasMatched < index && (committed || wasPaused)
        case Rejected(_, _, _, _) => lowers
        case HeartbeatAnswered(_, last) => wasMatched < last
        case Unreachable(_, _) => false
        case Broadcast(_, _) => true;
      assert answer == Answers(p, e);
      SendPanicsIff(Data(), e.first, e.last, true);
      if answer {
        ghost var q := Data();
        var sent := Send(e.first, e.last, true);
        if sent {
          SendKeepsWindow(q, e.first, e.last, true);
        }
      }
      if e.Accepted? && wasMatched < e.index {
        var rounds := SendAll(e.first, e.last);
      }
    }
  }
}
