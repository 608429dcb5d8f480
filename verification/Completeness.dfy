/**
 Leader completeness.  A voter refuses a candidate whose accept index is behind the voter's
 own tail, and an accept index only covers items that a majority holds.  Together these carry
 any item held by a majority into the list of every leader elected afterwards.
 */
module Completeness {
  import opened NodeModel
  import opened Cluster
  import opened Replication
  import Elections

  /** Election requests do not overstate the sender's accept index, and no message is ahead of the
      campaign it belongs to. */
  ghost predicate CallOk(s: State, m: Msg) {
    && (m.ElectReq? && m.from < |s.camps| && m.from < |s.nodes| ==>
          m.round <= s.camps[m.from].round && m.election.index <= s.nodes[m.from].acceptIndex)
    && (m.ElectRep? && m.to < |s.camps| ==> m.round <= s.camps[m.to].round)
  }

  ghost predicate CallInv(s: State) {
    Shape(s) && forall m :: m in s.net ==> CallOk(s, m)
  }

  lemma IndexesGrow(s: State, e: Event, i: nat)
    requires Shape(s) && i < |s.nodes|
    ensures s.nodes[i].acceptIndex <= Next(s, e).nodes[i].acceptIndex
    ensures s.camps[i].round <= Next(s, e).camps[i].round
  {
  }

  lemma CallStep(s: State, e: Event, m: Msg)
    requires CallInv(s) && Shape(Next(s, e)) && m in Next(s, e).net
    ensures CallOk(Next(s, e), m)
  {
    if m in s.net {
      assert CallOk(s, m);
      assert MailShape(s, m);
      IndexesGrow(s, e, m.from);
      IndexesGrow(s, e, m.to);
    } else if e.DeliverElect? {
      assert CallOk(s, e.m) && MailShape(s, e.m);
    }
  }

  lemma {:induction false} AlwaysCall(n: nat, es: seq<Event>)
    ensures CallInv(After(n, es))
  {
    if es == [] {
      InitShape(n);
    } else {
      var s, e := After(n, es[..|es| - 1]), es[|es| - 1];
      AlwaysCall(n, es[..|es| - 1]);
      ShapeStep(s, e);
      forall m | m in Next(s, e).net ensures CallOk(Next(s, e), m) { CallStep(s, e, m); }
    }
  }

  /** A moment of the run at which a majority, `holders`, was seen to hold `item` at index k,
      and the campaign each node was in at that moment. */
  datatype Mark = Mark(owner: nat, k: nat, item: Item, holders: set<nat>, rounds: seq<nat>)

  ghost predicate Holds(s: State, mk: Mark, c: nat) {
    c < |s.nodes| && mk.k < |s.nodes[c].items| && s.nodes[c].items[mk.k] == mk.item
  }

  /** Since the mark: a vote that one of the holders gave to a campaign begun since the mark,
      counted or on its way, went to a candidate that holds the item. */
  ghost predicate VoteCarries(s: State, mk: Mark, c: nat)
    requires c < |s.camps| && c < |mk.rounds|
  {
    s.camps[c].round > mk.rounds[c] && s.camps[c].granted * mk.holders != {} ==> Holds(s, mk, c)
  }

  ghost predicate ReplyCarries(s: State, mk: Mark, m: Msg)
    requires m.to < |mk.rounds|
  {
    m.ElectRep? && m.vote.accept && m.round > mk.rounds[m.to] && m.from in mk.holders ==> Holds(s, mk, m.to)
  }

  ghost predicate SinceInv(s: State, mk: Mark) {
    && CallInv(s) && AcceptInv(s)
    && |mk.rounds| == |s.nodes| && mk.k >= 1
    && Holds(s, mk, mk.owner) && Backed(s, mk.owner, mk.k)
    && (forall v :: v in mk.holders ==> Holds(s, mk, v))
    && (forall c :: 0 <= c < |s.nodes| ==> s.camps[c].round >= mk.rounds[c] && VoteCarries(s, mk, c))
    && (forall m :: m in s.net ==> m.to < |mk.rounds| && ReplyCarries(s, mk, m))
  }

  lemma HoldsGrows(s: State, t: State, mk: Mark, c: nat)
    requires ListsGrow(s, t) && Holds(s, mk, c)
    ensures Holds(t, mk, c)
  {
    assert s.nodes[c].items <= t.nodes[c].items;
  }

  /** A holder accepts a candidate only if the candidate's accept index reaches the item; what the accept
      index covers is held by a majority, and two majorities cannot hold different items. */
  lemma VoteNeedsItem(s: State, mk: Mark, m: Msg)
    requires SinceInv(s, mk) && m in s.net && m.ElectReq? && m.to in mk.holders
    requires HandleElection(s.nodes[m.to], m.election).1.accept
    ensures Holds(s, mk, m.from)
  {
    assert MailShape(s, m) && CallOk(s, m);
    assert Holds(s, mk, m.to) && Chain(s.origin, s.nodes[m.to].items);
    assert mk.k <= s.nodes[m.from].acceptIndex;
    assert BackedTo(s, m.from, s.nodes[m.from].acceptIndex);
    assert Backed(s, m.from, mk.k);
    HoldersMeet(s, m.from, mk.owner, mk.k);
  }

  lemma ReplySent(s: State, e: Event, m: Msg)
    requires |s.nodes| == |s.camps| && m in Next(s, e).net && m !in s.net && m.ElectRep? && m.vote.accept
    ensures e.DeliverElect? && Enabled(s, e) && m.from == e.m.to && m.to == e.m.from
    ensures HandleElection(s.nodes[e.m.to], e.m.election).1.accept
  {
  }

  lemma ReplyCarriesStep(s: State, mk: Mark, e: Event, m: Msg)
    requires SinceInv(s, mk) && Shape(Next(s, e)) && ListsGrow(s, Next(s, e)) && m in Next(s, e).net
    ensures m.to < |mk.rounds| && ReplyCarries(Next(s, e), mk, m)
  {
    assert MailShape(Next(s, e), m);
    if m.ElectRep? && m.vote.accept && m.round > mk.rounds[m.to] && m.from in mk.holders {
      if m in s.net {
        assert ReplyCarries(s, mk, m);
      } else {
        ReplySent(s, e, m);
        VoteNeedsItem(s, mk, e.m);
      }
      HoldsGrows(s, Next(s, e), mk, m.to);
    }
  }

  lemma VoteCarriesStep(s: State, mk: Mark, e: Event, c: nat)
    requires SinceInv(s, mk) && Shape(Next(s, e)) && ListsGrow(s, Next(s, e)) && c < |s.nodes|
    ensures VoteCarries(Next(s, e), mk, c)
  {
    var t := Next(s, e);
    assert VoteCarries(s, mk, c);
    if c in mk.holders || Holds(s, mk, c) {
      HoldsGrows(s, t, mk, c);
    } else if Elections.OfCampaign(e, c) && Enabled(s, e) {
      if e.CollectElect? {
        assert ReplyCarries(s, mk, e.m);
      }
    } else {
      Elections.CampaignUntouched(s, e, c);
    }
  }

  lemma SinceStep(s: State, mk: Mark, e: Event)
    requires SinceInv(s, mk) && FreshOrigin(s, e)
    ensures SinceInv(Next(s, e), mk)
  {
    var t := Next(s, e);
    AcceptStep(s, e);
    ListsGrowStep(s, e);
    forall m | m in t.net
      ensures CallOk(t, m) && m.to < |mk.rounds| && ReplyCarries(t, mk, m)
    {
      CallStep(s, e, m);
      ReplyCarriesStep(s, mk, e, m);
    }
    BackedGrows(s, t, mk.owner, mk.k);
    HoldsGrows(s, t, mk, mk.owner);
    forall v | v in mk.holders ensures Holds(t, mk, v) { HoldsGrows(s, t, mk, v); }
    forall c | 0 <= c < |t.nodes|
      ensures t.camps[c].round >= mk.rounds[c] && VoteCarries(t, mk, c)
    {
      IndexesGrow(s, e, c);
      VoteCarriesStep(s, mk, e, c);
    }
  }

  ghost function MarkOf(s: State, i: nat, k: nat): Mark
    requires Backed(s, i, k)
  {
    Mark(i, k, s.nodes[i].items[k], Holders(s, i, k), seq(|s.camps|, c requires 0 <= c < |s.camps| => s.camps[c].round))
  }

  lemma {:induction false} AlwaysSince(n: nat, es: seq<Event>, more: seq<Event>, i: nat, k: nat)
    requires FreshlyFed(n, es + more) && k >= 1 && Backed(After(n, es), i, k)
    ensures SinceInv(After(n, es + more), MarkOf(After(n, es), i, k))
  {
    if more == [] {
      assert es + more == es;
      AlwaysCall(n, es);
      AlwaysAccept(n, es);
      var s, mk := After(n, es), MarkOf(After(n, es), i, k);
      forall m | m in s.net ensures m.to < |mk.rounds| && ReplyCarries(s, mk, m) {
        assert MailShape(s, m) && CallOk(s, m);
      }
    } else {
      var front := more[..|more| - 1];
      AfterLast(n, es, more);
      AlwaysSince(n, es, front, i, k);
      SinceStep(After(n, es + front), MarkOf(After(n, es), i, k), more[|more| - 1]);
    }
  }

  /** Once more than half of the cluster holds node i's item at index k, every node that wins a campaign
      begun later has node i's whole list through k. */
  lemma LeaderCompleteness(n: nat, es: seq<Event>, more: seq<Event>, i: nat, k: nat, c: nat)
    requires FreshlyFed(n, es + more) && k >= 1 && Backed(After(n, es), i, k) && c < n
    requires After(n, es + more).camps[c].round > After(n, es).camps[c].round
    requires Enabled(After(n, es + more), Finish(c)) && HasMajority(After(n, es + more).nodes[c])
    ensures Shares(After(n, es + more), i, c, k)
  {
    var t, mk := After(n, es + more), MarkOf(After(n, es), i, k);
    AlwaysSince(n, es, more, i, k);
    Elections.AlwaysCount(n, es + more);
    assert Elections.CountOk(t, c) && ShapeOk(t, c);
    var v := Elections.MajoritiesMeet(t.camps[c].granted, mk.holders, n);
    assert v in t.camps[c].granted * mk.holders;
    assert VoteCarries(t, mk, c);
    assert Chain(t.origin, t.nodes[i].items) && Chain(t.origin, t.nodes[c].items);
    ChainsMeet(t.origin, t.nodes[i].items, t.nodes[c].items, k);
  }
}
