/**
 Pending linearizable reads: a map from request context to its status, and a queue of the
 contexts in arrival order, which every operation keeps in step.
 */
module ReadIndex {
  import opened Basics

  /** A request's context, by which it is known. */
  datatype Ctx = Ctx(bytes: string)

  /** `ctx` is the context carried by the request itself. */
  datatype Status = Status(ctx: Ctx, from: nat, index: nat, acks: set<nat>)

  datatype Reads = Reads(pending: map<Ctx, Status>, queue: seq<Ctx>)

  ghost predicate InStep(r: Reads) {
    && (forall a, b :: 0 <= a < b < |r.queue| ==> r.queue[a] != r.queue[b])
    && (forall c :: c in r.queue <==> c in r.pending)
    && (forall c :: c in r.pending ==> r.pending[c].ctx == c)
  }

  function AddRequest(r: Reads, index: nat, from: nat, ctx: Ctx): Reads {
    if ctx in r.pending then r
    else Reads(r.pending[ctx := Status(ctx, from, index, {})], r.queue + [ctx])
  }

  function RecvAck(r: Reads, id: nat, ctx: Ctx): Reads {
    if ctx in r.pending then r.(pending := r.pending[ctx := r.pending[ctx].(acks := r.pending[ctx].acks + {id})]) else r
  }

  /** How much of the queue lies at or before the acknowledged context; nothing if it is not queued. */
  function Through(queue: seq<Ctx>, ctx: Ctx): (n: nat)
    ensures n <= |queue|
    ensures n == 0 ==> forall k :: 0 <= k < |queue| ==> queue[k] != ctx
    ensures n > 0 ==> queue[n - 1] == ctx && forall k :: 0 <= k < n - 1 ==> queue[k] != ctx
  {
    if queue == [] then 0
    else if queue[0] == ctx then 1
    else
      var n := Through(queue[1..], ctx);
      assert forall k :: 0 < k < |queue| ==> queue[k] == queue[1..][k - 1];
      if n == 0 then 0 else n + 1
  }

  function Contexts(queue: seq<Ctx>, n: nat): set<Ctx>
    requires n <= |queue|
  {
    set k | 0 <= k < n :: queue[k]
  }

  function Advance(r: Reads, ctx: Ctx): Reads {
    var n := Through(r.queue, ctx);
    Reads(r.pending - Contexts(r.queue, n), r.queue[n..])
  }

  /** The status of the k-th queued context. */
  function StatusAt(r: Reads, k: nat): Status
    requires k < |r.queue| && r.queue[k] in r.pending
  {
    r.pending[r.queue[k]]
  }

  lemma AllHaveStatus(r: Reads)
    requires InStep(r)
    ensures forall k :: 0 <= k < |r.queue| ==> r.queue[k] in r.pending && StatusAt(r, k).ctx == r.queue[k]
  {
  }

  /** What `advance` hands back: the statuses through the acknowledged context, in queue order. */
  ghost predicate IsRelease(r: Reads, ctx: Ctx, rs: seq<Status>) {
    && |rs| == Through(r.queue, ctx)
    && forall k :: 0 <= k < |rs| ==> r.queue[k] in r.pending && rs[k] == StatusAt(r, k)
  }

  lemma DropNone(r: Reads)
    ensures r.pending - Contexts(r.queue, 0) == r.pending
  {
  }

  lemma DropOne(r: Reads, k: nat)
    requires InStep(r) && k < |r.queue|
    ensures r.queue[k] in r.pending && StatusAt(r, k).ctx == r.queue[k]
    ensures r.pending - Contexts(r.queue, k + 1) == r.pending - Contexts(r.queue, k) - {r.queue[k]}
  {
    AllHaveStatus(r);
    assert Contexts(r.queue, k + 1) == Contexts(r.queue, k) + {r.queue[k]};
  }

  class ReadOnly {
    var pending: map<Ctx, Status>
    var queue: seq<Ctx>

    ghost function Data(): Reads
      reads this
    {
      Reads(pending, queue)
    }

    constructor ()
      ensures Data() == Reads(map[], [])
    {
      pending, queue := map[], [];
    }

    method Add(index: nat, from: nat, ctx: Ctx)
      modifies this
      ensures Data() == AddRequest(old(Data()), index, from, ctx)
    {
      if ctx in pending {
        return;
      }
      pending := pending[ctx := Status(ctx, from, index, {})];
      queue := queue + [ctx];
    }

    method Ack(id: nat, ctx: Ctx) returns (acks: Option<set<nat>>)
      modifies this
      ensures Data() == RecvAck(old(Data()), id, ctx)
      ensures acks == if ctx in pending then Some(pending[ctx].acks) else None
    {
      if ctx !in pending {
        return None;
      }
      pending := pending[ctx := pending[ctx].(acks := pending[ctx].acks + {id})];
      return Some(pending[ctx].acks);
    }

    /** The panic on a queued context without a status cannot happen: the lookup below is proved safe. */
    method Scan(ctx: Ctx) returns (found: bool, i: nat, rss: seq<Status>)
      requires InStep(Data())
      ensures found <==> Through(queue, ctx) > 0
      ensures found ==> i == Through(queue, ctx) && IsRelease(Data(), ctx, rss)
    {
      AllHaveStatus(Data());
      found, i, rss := false, 0, [];
      while i < |queue| && !found
        invariant i <= |queue| && |rss| == i
        invariant found ==> i > 0 && queue[i - 1] == ctx && forall k :: 0 <= k < i - 1 ==> queue[k] != ctx
        invariant !found ==> forall k :: 0 <= k < i ==> queue[k] != ctx
        invariant forall k :: 0 <= k < i ==> rss[k] == StatusAt(Data(), k)
      {
        rss := rss + [pending[queue[i]]];
        found := queue[i] == ctx;
        i := i + 1;
      }
    }

    method AdvanceTo(ctx: Ctx) returns (rss: seq<Status>)
      requires InStep(Data())
      modifies this
      ensures IsRelease(old(Data()), ctx, rss)
      ensures Data() == Advance(old(Data()), ctx)
    {
      ghost var r := Data();
      var found, i, got := Scan(ctx);
      if !found {
        DropNone(r);
        return [];
      }
      rss := got;
      queue := queue[i..];
      var k := 0;
      DropNone(r);
      while k < |rss|
        invariant 0 <= k <= |rss| && queue == r.queue[i..]
        invariant pending == r.pending - Contexts(r.queue, k)
      {
        DropOne(r, k);
        pending := pending - {rss[k].ctx};
        k := k + 1;
      }
    }
  }

  // ---------------------------------------------------------------------------
  // Every run
  // ---------------------------------------------------------------------------

  lemma AddKeeps(r: Reads, index: nat, from: nat, ctx: Ctx)
    requires InStep(r)
    ensures InStep(AddRequest(r, index, from, ctx))
  {
    if ctx !in r.pending {
      var t := AddRequest(r, index, from, ctx);
      forall c | c in t.pending ensures c in t.queue {
        if c == ctx { assert t.queue[|r.queue|] == ctx; }
      }
    }
  }

  lemma AckKeeps(r: Reads, id: nat, ctx: Ctx)
    requires InStep(r)
    ensures InStep(RecvAck(r, id, ctx))
  {
  }

  lemma AdvanceKeeps(r: Reads, ctx: Ctx)
    requires InStep(r)
    ensures InStep(Advance(r, ctx))
  {
    var n, t := Through(r.queue, ctx), Advance(r, ctx);
    forall c | c in t.pending ensures c in t.queue {
      var k :| 0 <= k < |r.queue| && r.queue[k] == c;
      assert t.queue[k - n] == c;
    }
    forall c | c in t.queue ensures c in t.pending {
      var k :| 0 <= k < |t.queue| && t.queue[k] == c;
      assert r.queue[k + n] == c;
    }
  }

  /** What is released is the front of the queue, nothing else leaves, and nothing left is touched. */
  lemma AdvanceExact(r: Reads, ctx: Ctx)
    requires InStep(r)
    ensures InStep(Advance(r, ctx))
    ensures r.queue == r.queue[..Through(r.queue, ctx)] + Advance(r, ctx).queue
    ensures forall c :: c in r.pending ==>
              if c in Contexts(r.queue, Through(r.queue, ctx)) then c !in Advance(r, ctx).pending
              else c in Advance(r, ctx).pending && Advance(r, ctx).pending[c] == r.pending[c]
    ensures Advance(r, ctx).pending.Keys <= r.pending.Keys
  {
    AdvanceKeeps(r, ctx);
  }

  datatype Op = Request(commit: nat, from: nat, ctx: Ctx) | Acked(id: nat, ctx: Ctx) | Confirmed(ctx: Ctx)

  /** The reads, and every read index released so far, in order. */
  datatype Service = Service(book: Reads, released: seq<nat>, commit: nat)

  /** The index a queued context waits for. */
  ghost function Waits(r: Reads, k: nat): nat
    requires InStep(r) && k < |r.queue|
  {
    AllHaveStatus(r);
    StatusAt(r, k).index
  }

  /** The indexes of the first n queued contexts. */
  ghost function WaitingThrough(r: Reads, n: nat): (s: seq<nat>)
    requires InStep(r) && n <= |r.queue|
    ensures |s| == n && forall k :: 0 <= k < n ==> s[k] == Waits(r, k)
  {
    seq(n, k requires 0 <= k < n => Waits(r, k))
  }

  ghost function Do(s: Service, op: Op): Service {
    match op
    case Request(commit, from, ctx) => s.(book := AddRequest(s.book, commit, from, ctx), commit := commit)
    case Acked(id, ctx) => s.(book := RecvAck(s.book, id, ctx))
    case Confirmed(ctx) =>
      if !InStep(s.book) then s
      else s.(book := Advance(s.book, ctx),
              released := s.released + WaitingThrough(s.book, Through(s.book.queue, ctx)))
  }

  /** The read indexes released so far, then those still waiting, in queue order. */
  ghost function Timeline(s: Service): seq<nat>
    requires InStep(s.book)
  {
    s.released + WaitingThrough(s.book, |s.book.queue|)
  }

  ghost predicate Ordered(s: Service) {
    && InStep(s.book)
    && (forall a, b :: 0 <= a < b < |Timeline(s)| ==> Timeline(s)[a] <= Timeline(s)[b])
    && (forall a :: 0 <= a < |Timeline(s)| ==> Timeline(s)[a] <= s.commit)
  }

  lemma AdvanceShifts(r: Reads, ctx: Ctx, a: nat)
    requires InStep(r) && a < |Advance(r, ctx).queue|
    ensures InStep(Advance(r, ctx)) && Waits(Advance(r, ctx), a) == Waits(r, a + Through(r.queue, ctx))
  {
    AdvanceKeeps(r, ctx);
    assert Advance(r, ctx).queue[a] == r.queue[a + Through(r.queue, ctx)];
    AllHaveStatus(Advance(r, ctx));
  }

  lemma SameWaits(s: Service, t: Service)
    requires InStep(s.book) && InStep(t.book) && s.released == t.released && s.book.queue == t.book.queue
    requires forall c :: c in s.book.pending ==> c in t.book.pending && t.book.pending[c].index == s.book.pending[c].index
    ensures Timeline(s) == Timeline(t)
  {
    forall a | 0 <= a < |s.book.queue| ensures Waits(t.book, a) == Waits(s.book, a) { AllHaveStatus(s.book); }
    assert WaitingThrough(s.book, |s.book.queue|) == WaitingThrough(t.book, |s.book.queue|);
  }

  lemma TimelineAdd(s: Service, op: Op)
    requires InStep(s.book) && op.Request? && op.ctx !in s.book.pending
    ensures InStep(Do(s, op).book) && Timeline(Do(s, op)) == Timeline(s) + [op.commit]
  {
    AddKeeps(s.book, op.commit, op.from, op.ctx);
    var t, n := Do(s, op), |s.book.queue|;
    forall a | 0 <= a < n ensures Waits(t.book, a) == Waits(s.book, a) { AllHaveStatus(s.book); }
    assert WaitingThrough(t.book, n + 1) == WaitingThrough(s.book, n) + [op.commit];
  }

  lemma WaitingSplits(r: Reads, ctx: Ctx)
    requires InStep(r) && InStep(Advance(r, ctx))
    ensures WaitingThrough(r, |r.queue|)
         == WaitingThrough(r, Through(r.queue, ctx)) + WaitingThrough(Advance(r, ctx), |Advance(r, ctx).queue|)
  {
    var n, t := Through(r.queue, ctx), Advance(r, ctx);
    var all, gone, left := WaitingThrough(r, |r.queue|), WaitingThrough(r, n), WaitingThrough(t, |t.queue|);
    forall a | 0 <= a < |all| ensures all[a] == (gone + left)[a] {
      if a >= n {
        AdvanceShifts(r, ctx, a - n);
      }
    }
  }

  lemma TimelineAdvance(s: Service, op: Op)
    requires InStep(s.book) && op.Confirmed?
    ensures InStep(Do(s, op).book) && Timeline(Do(s, op)) == Timeline(s)
  {
    AdvanceKeeps(s.book, op.ctx);
    WaitingSplits(s.book, op.ctx);
    var t := Do(s, op);
    Associates(s.released, WaitingThrough(s.book, Through(s.book.queue, op.ctx)),
                     WaitingThrough(t.book, |t.book.queue|));
  }

  /** A new request joins at the end; an acknowledgement and a release change nothing in the line. */
  lemma TimelineStep(s: Service, op: Op)
    requires InStep(s.book)
    ensures InStep(Do(s, op).book)
    ensures Timeline(Do(s, op)) == Timeline(s) + if op.Request? && op.ctx !in s.book.pending then [op.commit] else []
  {
    if op.Confirmed? {
      TimelineAdvance(s, op);
    } else if op.Acked? {
      AckKeeps(s.book, op.id, op.ctx);
      SameWaits(s, Do(s, op));
    } else if op.ctx !in s.book.pending {
      TimelineAdd(s, op);
    } else {
      SameWaits(s, Do(s, op));
    }
  }

  /** A request that is not pending becomes so with its sender, the commit index of its arrival, and no
      acknowledgement; one that is pending is left as it is. */
  lemma RequestOpens(s: Service, op: Op)
    requires op.Request?
    ensures op.ctx in Do(s, op).book.pending
    ensures Do(s, op).book.pending[op.ctx]
         == if op.ctx in s.book.pending then s.book.pending[op.ctx] else Status(op.ctx, op.from, op.commit, {})
  {
  }

  /** While a context is pending only its acknowledgements change, and each adds its sender and nobody else. */
  lemma AcksGrow(s: Service, op: Op, c: Ctx)
    requires c in s.book.pending && c in Do(s, op).book.pending
    ensures Do(s, op).book.pending[c] == s.book.pending[c].(
              acks := s.book.pending[c].acks + if op.Acked? && op.ctx == c then {op.id} else {})
  {
  }

  /** Context c is queued at or before context d. */
  ghost predicate QueuedBy(r: Reads, c: Ctx, d: Ctx) {
    exists k, j :: 0 <= k <= j < |r.queue| && r.queue[k] == c && r.queue[j] == d
  }

  lemma ThroughExact(r: Reads, c: Ctx, d: Ctx)
    requires InStep(r)
    ensures c in Contexts(r.queue, Through(r.queue, d)) <==> QueuedBy(r, c, d)
  {
    var n := Through(r.queue, d);
    if c in Contexts(r.queue, n) {
      var k :| 0 <= k < n && r.queue[k] == c;
      assert r.queue[n - 1] == d;
    }
    if QueuedBy(r, c, d) {
      var k, j :| 0 <= k <= j < |r.queue| && r.queue[k] == c && r.queue[j] == d;
      assert j == n - 1;
    }
  }

  /** A pending context stops being so exactly by a confirmation of it or of one queued behind it. */
  lemma LeavesIff(s: Service, op: Op, c: Ctx)
    requires InStep(s.book) && c in s.book.pending
    ensures c !in Do(s, op).book.pending <==> op.Confirmed? && QueuedBy(s.book, c, op.ctx)
  {
    if op.Confirmed? {
      ThroughExact(s.book, c, op.ctx);
      AdvanceExact(s.book, op.ctx);
    }
  }

  ghost function Run(s: Service, ops: seq<Op>): Service {
    if ops == [] then s else Do(Run(s, ops[..|ops| - 1]), ops[|ops| - 1])
  }

  ghost predicate CommitsForward(s: Service, ops: seq<Op>) {
    ops == [] ||
    (CommitsForward(s, ops[..|ops| - 1]) &&
     (ops[|ops| - 1].Request? ==> Run(s, ops[..|ops| - 1]).commit <= ops[|ops| - 1].commit))
  }

  /** While the commit index does not fall, reads are released in order of non-decreasing read index. */
  lemma {:induction false} ReadsInOrder(s: Service, ops: seq<Op>)
    requires Ordered(s) && CommitsForward(s, ops)
    ensures Ordered(Run(s, ops))
  {
    if ops != [] {
      ReadsInOrder(s, ops[..|ops| - 1]);
      var r, op := Run(s, ops[..|ops| - 1]), ops[|ops| - 1];
      TimelineStep(r, op);
    }
  }

  /** Who acknowledged context c in these operations. */
  ghost function AckedIn(ops: seq<Op>, c: Ctx): set<nat> {
    set k | 0 <= k < |ops| && ops[k].Acked? && ops[k].ctx == c :: ops[k].id
  }

  /** Context c is pending, its status opened by the k-th operation, a request, and acknowledged since by
      exactly those who sent an acknowledgement since. */
  ghost predicate OpenSince(s: Service, ops: seq<Op>, c: Ctx, k: nat) {
    && k < |ops| && ops[k].Request? && ops[k].ctx == c && c !in Run(s, ops[..k]).book.pending
    && c in Run(s, ops).book.pending
    && Run(s, ops).book.pending[c] == Status(c, ops[k].from, ops[k].commit, AckedIn(ops[k + 1..], c))
  }

  lemma AckedInSnoc(ops: seq<Op>, k: nat, c: Ctx)
    requires k < |ops| - 1
    ensures var op := ops[|ops| - 1];
            AckedIn(ops[k + 1..], c) == AckedIn(ops[..|ops| - 1][k + 1..], c) + if op.Acked? && op.ctx == c then {op.id} else {}
  {
    var tail, front := ops[k + 1..], ops[..|ops| - 1][k + 1..];
    assert tail == front + [ops[|ops| - 1]];
    forall id | id in AckedIn(front, c) ensures id in AckedIn(tail, c) {
      var a :| 0 <= a < |front| && front[a].Acked? && front[a].ctx == c && front[a].id == id;
      assert tail[a] == front[a];
    }
    assert tail[|tail| - 1] == ops[|ops| - 1];
  }

  /** In every run, whatever is pending that was not at the start was opened by some request in the run, waits
      for the commit index that the request came with, and has been acknowledged since by exactly those whose
      acknowledgements have come since. */
  lemma {:induction false} PendingSince(s: Service, ops: seq<Op>, c: Ctx) returns (k: nat)
    requires c in Run(s, ops).book.pending && c !in s.book.pending
    ensures OpenSince(s, ops, c, k)
  {
    var n := |ops| - 1;
    var front, op := ops[..n], ops[n];
    var r := Run(s, front);
    if c in r.book.pending {
      k := PendingSince(s, front, c);
      AcksGrow(r, op, c);
      AckedInSnoc(ops, k, c);
      assert front[..k] == ops[..k] && front[k] == ops[k];
    } else {
      k := n;
      assert op.Request? && op.ctx == c;
      RequestOpens(r, op);
      assert AckedIn(ops[k + 1..], c) == {};
    }
  }
}
