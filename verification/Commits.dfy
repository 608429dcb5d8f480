/**
 Commit agreement: what it takes for nodes never to commit different items, and the guard on
 offered commits that would see to it.
 */
module Commits {
  import opened NodeModel
  import opened Cluster
  import opened Replication
  import Elections

  // ---------------------------------------------------------------------------
  // Commit agreement, where commits are backed by a majority
  // ---------------------------------------------------------------------------

  /** The event raises no commit index to an item that a majority does not hold. */
  ghost predicate BackedCommit(s: State, e: Event)
    requires |s.nodes| == |s.camps|
  {
    forall i :: 0 <= i < |s.nodes| && s.nodes[i].commitIndex < Next(s, e).nodes[i].commitIndex ==>
                  Backed(Next(s, e), i, Next(s, e).nodes[i].commitIndex)
  }

  ghost predicate BackedCommits(n: nat, es: seq<Event>) {
    es == [] ||
    (BackedCommits(n, es[..|es| - 1]) && BackedCommit(After(n, es[..|es| - 1]), es[|es| - 1]))
  }

  ghost predicate CommitInv(s: State) {
    forall i :: 0 <= i < |s.nodes| ==> BackedTo(s, i, s.nodes[i].commitIndex)
  }

  lemma CommitIndexStep(s: State, e: Event, i: nat)
    requires Shape(s) && i < |s.nodes|
    ensures s.nodes[i].commitIndex <= Next(s, e).nodes[i].commitIndex <= s.nodes[i].commitIndex + 1
  {
  }

  lemma CommitBackedFrame(s: State, t: State, i: nat, c: nat, c': nat)
    requires ListsGrow(s, t) && i < |s.nodes| && BackedTo(s, i, c) && c <= c' <= c + 1 && (c < c' ==> Backed(t, i, c'))
    ensures BackedTo(t, i, c')
  {
    BackedToGrows(s, t, i, c);
  }

  lemma CommitBackedStep(s: State, e: Event, i: nat)
    requires Shape(s) && CommitInv(s) && BackedCommit(s, e) && i < |s.nodes| && ListsGrow(s, Next(s, e))
    ensures BackedTo(Next(s, e), i, Next(s, e).nodes[i].commitIndex)
  {
    CommitIndexStep(s, e, i);
    CommitBackedFrame(s, Next(s, e), i, s.nodes[i].commitIndex, Next(s, e).nodes[i].commitIndex);
  }

  lemma {:induction false} AlwaysCommit(n: nat, es: seq<Event>)
    requires BackedCommits(n, es)
    ensures CommitInv(After(n, es))
  {
    if es != [] {
      var s, e := After(n, es[..|es| - 1]), es[|es| - 1];
      AlwaysCommit(n, es[..|es| - 1]);
      AlwaysShape(n, es[..|es| - 1]);
      ListsGrowStep(s, e);
      forall i | 0 <= i < n ensures BackedTo(Next(s, e), i, Next(s, e).nodes[i].commitIndex) {
        CommitBackedStep(s, e, i);
      }
    }
  }

  /** If every commit is backed by a majority when it is made, committed lists never disagree. */
  lemma BackedCommitsAgree(n: nat, es: seq<Event>, i: nat, j: nat, k: nat)
    requires FreshlyFed(n, es) && BackedCommits(n, es) && i < n && j < n
    requires k <= After(n, es).nodes[i].commitIndex && k <= After(n, es).nodes[j].commitIndex
    ensures Shares(After(n, es), i, j, k)
  {
    var s := After(n, es);
    AlwaysAccept(n, es);
    AlwaysCommit(n, es);
    FirstItem(n, es, i);
    FirstItem(n, es, j);
    assert BackedTo(s, i, s.nodes[i].commitIndex) && BackedTo(s, j, s.nodes[j].commitIndex);
    if k > 0 {
      assert Backed(s, i, k) && Backed(s, j, k);
      HoldersMeet(s, i, j, k);
    }
    LogMatching(n, es, i, j, k);
  }

  // ---------------------------------------------------------------------------
  // The guard that is missing
  // ---------------------------------------------------------------------------

  /** A commit is offered only if the sender's own accept index has reached it. */
  ghost predicate GuardedOffer(s: State, e: Event)
    requires |s.nodes| == |s.camps|
  {
    Enabled(s, e) && (e.SendHeart? || e.SendAppend?) ==>
      Offer(s.nodes[e.i].others[e.w]) <= s.nodes[e.i].acceptIndex
  }

  ghost predicate GuardedOffers(n: nat, es: seq<Event>) {
    es == [] ||
    (GuardedOffers(n, es[..|es| - 1]) && GuardedOffer(After(n, es[..|es| - 1]), es[|es| - 1]))
  }

  /** The commit index a request offers; 0 offers nothing. */
  ghost function Offered(m: Msg): nat {
    match m
    case HeartReq(_, _, heart) => heart.commit
    case AppendReq(_, _, _, append) => append.commit
    case _ => 0
  }

  /** What is offered is on a majority of the cluster, and the receiver has it already. */
  ghost predicate OfferOk(s: State, m: Msg) {
    Offered(m) > 0 ==> Shares(s, m.from, m.to, Offered(m)) && Backed(s, m.from, Offered(m))
  }

  ghost predicate OfferInv(s: State) {
    AcceptInv(s) && forall m :: m in s.net ==> OfferOk(s, m)
  }

  lemma SharesLess(s: State, i: nat, j: nat, a: nat, k: nat)
    requires Shares(s, i, j, a) && k <= a
    ensures Shares(s, i, j, k)
  {
    assert s.nodes[i].items[..a + 1][..k + 1] == s.nodes[i].items[..k + 1];
    assert s.nodes[j].items[..a + 1][..k + 1] == s.nodes[j].items[..k + 1];
  }

  lemma SharesBacked(s: State, i: nat, j: nat, k: nat)
    requires Shares(s, i, j, k) && Backed(s, i, k)
    ensures Backed(s, j, k)
  {
    SharesHolds(s, i, j, k, k);
    assert Holders(s, i, k) == Holders(s, j, k);
  }

  /** An offer made under the guard. */
  lemma OfferMade(s: State, i: nat, w: nat)
    requires AcceptInv(s) && i < |s.nodes| && w < |s.nodes[i].others|
    requires 0 < Offer(s.nodes[i].others[w]) <= s.nodes[i].acceptIndex
    ensures Shares(s, i, s.nodes[i].others[w].peer, Offer(s.nodes[i].others[w]))
    ensures Backed(s, i, Offer(s.nodes[i].others[w]))
  {
    var row := s.nodes[i].others[w];
    assert WorkOk(s, i) && BackedTo(s, i, s.nodes[i].acceptIndex);
    SharesLess(s, i, row.peer, row.acceptIndex, Offer(row));
  }

  lemma OfferSent(s: State, e: Event, m: Msg)
    requires |s.nodes| == |s.camps| && m in Next(s, e).net && m !in s.net && Offered(m) > 0
    ensures (e.SendHeart? || e.SendAppend?) && Enabled(s, e) && m.from == e.i && m.to == s.nodes[e.i].others[e.w].peer
    ensures Offered(m) == Offer(s.nodes[e.i].others[e.w])
  {
  }

  lemma OfferStep(s: State, e: Event, m: Msg)
    requires OfferInv(s) && GuardedOffer(s, e) && ListsGrow(s, Next(s, e)) && m in Next(s, e).net && Offered(m) > 0
    ensures OfferOk(Next(s, e), m)
  {
    if m in s.net {
      assert OfferOk(s, m);
    } else {
      OfferSent(s, e, m);
      OfferMade(s, e.i, e.w);
    }
    SharesGrow(s, Next(s, e), m.from, m.to, Offered(m));
    BackedGrows(s, Next(s, e), m.from, Offered(m));
  }

  /** A majority of recorded commits is a majority of holders, since no peer commits beyond what it accepted. */
  lemma CountBacksCommit(s: State, i: nat, c: nat)
    requires Shape(s) && i < |s.nodes| && WorkOk(s, i)
    requires 2 * CountAbove(RecordedCommits(s.nodes[i].others), c) > |s.nodes[i].others| + 1
    ensures Backed(s, i, c + 1)
  {
    var ws := s.nodes[i].others;
    assert ShapeOk(s, i);
    forall w | 0 <= w < |ws| ensures Shares(s, i, ws[w].peer, ws[w].commitIndex) {
      SharesLess(s, i, ws[w].peer, ws[w].acceptIndex, ws[w].commitIndex);
    }
    CountBacks(s, i, ws, RecordedCommits(ws), c);
  }

  /** A commit made on delivery of an offer. */
  lemma CommitByOffer(s: State, e: Event, i: nat)
    requires Shape(s) && i < |s.nodes| && !CountsCommits(s, e, i)
    requires s.nodes[i].commitIndex < Next(s, e).nodes[i].commitIndex
    ensures (e.DeliverHeart? || e.DeliverAppend?) && Enabled(s, e) && e.m.to == i
    ensures Next(s, e).nodes[i].commitIndex == Offered(e.m)
  {
  }

  lemma OfferBacks(s: State, t: State, m: Msg)
    requires OfferOk(s, m) && ListsGrow(s, t) && Offered(m) > 0
    ensures Backed(t, m.to, Offered(m))
  {
    SharesBacked(s, m.from, m.to, Offered(m));
    BackedGrows(s, t, m.to, Offered(m));
  }

  lemma CountedCommitBacked(s: State, e: Event, i: nat)
    requires |s.nodes| == |s.camps| && i < |s.nodes| && CountsCommits(s, e, i)
    requires Shape(Next(s, e)) && WorkOk(Next(s, e), i) && s.nodes[i].commitIndex < Next(s, e).nodes[i].commitIndex
    ensures Backed(Next(s, e), i, Next(s, e).nodes[i].commitIndex)
  {
    CommitByCount(s, e, i);
    CountBacksCommit(Next(s, e), i, s.nodes[i].commitIndex);
  }

  lemma GuardBacksStep(s: State, e: Event, i: nat)
    requires OfferInv(s) && i < |s.nodes| && ListsGrow(s, Next(s, e)) && Shape(Next(s, e)) && WorkOk(Next(s, e), i)
    requires s.nodes[i].commitIndex < Next(s, e).nodes[i].commitIndex
    ensures Backed(Next(s, e), i, Next(s, e).nodes[i].commitIndex)
  {
    if CountsCommits(s, e, i) {
      CountedCommitBacked(s, e, i);
    } else {
      CommitByOffer(s, e, i);
      OfferBacks(s, Next(s, e), e.m);
    }
  }

  /** With the guard, no node ever commits an item that a majority does not hold. */
  lemma {:induction false} GuardBacksCommits(n: nat, es: seq<Event>)
    requires FreshlyFed(n, es) && GuardedOffers(n, es)
    ensures BackedCommits(n, es) && OfferInv(After(n, es))
  {
    AlwaysAccept(n, es);
    if es != [] {
      var s, e := After(n, es[..|es| - 1]), es[|es| - 1];
      GuardBacksCommits(n, es[..|es| - 1]);
      ListsGrowStep(s, e);
      forall m | m in Next(s, e).net && Offered(m) > 0 ensures OfferOk(Next(s, e), m) { OfferStep(s, e, m); }
      forall i | 0 <= i < n && s.nodes[i].commitIndex < Next(s, e).nodes[i].commitIndex
        ensures Backed(Next(s, e), i, Next(s, e).nodes[i].commitIndex)
      {
        GuardBacksStep(s, e, i);
      }
    }
  }

  /** If senders offer no commit beyond their own accept index, the committed lists of any two nodes agree. */
  lemma CommitAgreement(n: nat, es: seq<Event>, i: nat, j: nat, k: nat)
    requires FreshlyFed(n, es) && GuardedOffers(n, es) && i < n && j < n
    requires k <= After(n, es).nodes[i].commitIndex && k <= After(n, es).nodes[j].commitIndex
    ensures Shares(After(n, es), i, j, k)
  {
    GuardBacksCommits(n, es);
    BackedCommitsAgree(n, es, i, j, k);
  }
}
