/**
 Replication over the append-only item lists: log matching, and the permanence of what the
 accept index covers.
 */
module Replication {
  import opened Basics
  import opened NodeModel
  import opened Cluster
  import Elections

  // ---------------------------------------------------------------------------
  // Log matching
  // ---------------------------------------------------------------------------

  /** Every prefix of the list is the one recorded when its last item was originated. */
  ghost predicate Chain(o: Origins, l: seq<Item>) {
    && l != []
    && (forall k :: 0 <= k < |l| ==>
          l[k].index == k && (k, l[k].term) in o && o[(k, l[k].term)] == l[..k + 1])
  }

  /** The request carries an item of its sender's list and names the item before it. */
  ghost predicate RequestOk(s: State, m: Msg)
    requires m.AppendReq?
  {
    && m.from < |s.nodes|
    && var l := s.nodes[m.from].items;
       var a := m.append;
       && a.entry.index < |l| && l[a.entry.index] == a.entry
       && (a.entry.index > 0 ==> a.preIndex == a.entry.index - 1 && a.preTerm == l[a.preIndex].term)
  }

  ghost predicate LogInv(s: State) {
    && Shape(s)
    && (forall i :: 0 <= i < |s.nodes| ==> Chain(s.origin, s.nodes[i].items))
    && (forall m :: m in s.net && m.AppendReq? ==> RequestOk(s, m))
  }

  lemma ChainsMeet(o: Origins, a: seq<Item>, b: seq<Item>, k: nat)
    requires Chain(o, a) && Chain(o, b) && k < |a| && k < |b| && a[k].term == b[k].term
    ensures a[..k + 1] == b[..k + 1]
  {
  }

  lemma ChainPrefix(o: Origins, l: seq<Item>, k: nat)
    requires Chain(o, l) && k < |l|
    ensures Chain(o, l[..k + 1])
  {
    var p := l[..k + 1];
    forall q | 0 <= q < |p|
      ensures p[q].index == q && (q, p[q].term) in o && o[(q, p[q].term)] == p[..q + 1]
    {
      assert p[..q + 1] == l[..q + 1];
    }
  }

  lemma {:induction false} PositionInChain(items: seq<Item>, k: nat, from: nat)
    requires k < |items| && forall q :: 0 <= q < |items| ==> items[q].index == from + q
    ensures PositionOf(items, from + k) == k
  {
    if k > 0 {
      PositionInChain(items[1..], k - 1, from + 1);
    }
  }

  /** A fitting request extends the receiver to exactly the sender's list through the entry. */
  lemma FitExtends(s: State, m: Msg)
    requires LogInv(s) && m in s.net && m.AppendReq? && Fits(s.nodes[m.to].items, m.append)
    ensures var l := s.nodes[m.from].items;
            var k := m.append.entry.index;
            k < |l| && s.nodes[m.to].items + [m.append.entry] == l[..k + 1]
  {
    assert MailShape(s, m) && RequestOk(s, m);
    var mine, theirs := s.nodes[m.to].items, s.nodes[m.from].items;
    var k := m.append.entry.index;
    assert Chain(s.origin, mine) && Chain(s.origin, theirs);
    ChainsMeet(s.origin, mine, theirs, k - 1);
    assert mine == mine[..k];
    assert theirs[..k + 1] == theirs[..k] + [theirs[k]];
  }

  /** A request fits exactly the receivers whose list is the sender's list up to the entry: behind or
      ahead of that, or with another item in it, it is refused. */
  lemma FitsIff(s: State, m: Msg)
    requires LogInv(s) && m in s.net && m.AppendReq?
    ensures var l := s.nodes[m.from].items;
            && m.append.entry.index < |l|
            && (Fits(s.nodes[m.to].items, m.append) <==> s.nodes[m.to].items == l[..m.append.entry.index])
  {
    assert MailShape(s, m) && RequestOk(s, m);
    var mine, theirs := s.nodes[m.to].items, s.nodes[m.from].items;
    assert Chain(s.origin, mine) && Chain(s.origin, theirs);
    if Fits(mine, m.append) {
      FitExtends(s, m);
      assert mine == (mine + [m.append.entry])[..|mine|];
    }
  }

  /** Items already in a list stay where they are. */
  ghost predicate ListsGrow(s: State, t: State) {
    |s.nodes| == |t.nodes| && forall i :: 0 <= i < |s.nodes| ==> s.nodes[i].items <= t.nodes[i].items
  }

  /** The item that the event makes node i append, if any. */
  ghost function NewItems(s: State, e: Event, i: nat): seq<Item>
    requires |s.nodes| == |s.camps| && i < |s.nodes|
  {
    if !Enabled(s, e) then []
    else if e.DeliverAppend? && e.m.to == i && e.stored && Fits(s.nodes[i].items, e.m.append) then [e.m.append.entry]
    else if e.Originate? && e.i == i && e.stored then [OwnAppend(s.nodes[i], e.term, e.value).entry]
    else []
  }

  lemma ItemsStay(s: State, e: Event, i: nat)
    requires |s.nodes| == |s.camps| && i < |s.nodes|
    requires !(e.DeliverAppend? && e.m.to == i) && !(e.Originate? && e.i == i)
    ensures Next(s, e).nodes[i].items == s.nodes[i].items
  {
  }

  lemma ItemsStep(s: State, e: Event, i: nat)
    requires |s.nodes| == |s.camps| && i < |s.nodes|
    ensures Next(s, e).nodes[i].items == s.nodes[i].items + NewItems(s, e, i)
  {
    if !(e.DeliverAppend? && e.m.to == i) && !(e.Originate? && e.i == i) {
      ItemsStay(s, e, i);
    }
  }

  lemma ListsGrowStep(s: State, e: Event)
    requires Shape(s)
    ensures ListsGrow(s, Next(s, e))
  {
    var t := Next(s, e);
    forall i | 0 <= i < |s.nodes| ensures s.nodes[i].items <= t.nodes[i].items {
      ItemsStep(s, e, i);
    }
  }

  lemma ChainOriginate(s: State, e: Event, i: nat)
    requires LogInv(s) && FreshOrigin(s, e) && i < |s.nodes| && e.Originate? && Enabled(s, e) && e.stored
    ensures Chain(Effect(s, e).origin, Effect(s, e).nodes[i].items)
  {
    var l, o, t := s.nodes[i].items, s.origin, Effect(s, e);
    assert Chain(o, l) && Chain(o, s.nodes[e.i].items);
    var l' := t.nodes[i].items;
    forall k | 0 <= k < |l'|
      ensures l'[k].index == k && (k, l'[k].term) in t.origin && t.origin[(k, l'[k].term)] == l'[..k + 1]
    {
      if k < |l| {
        assert l'[..k + 1] == l[..k + 1];
      } else {
        assert l'[..k + 1] == l';
      }
    }
  }

  lemma OriginStays(s: State, e: Event)
    requires |s.nodes| == |s.camps| && !(e.Originate? && Enabled(s, e) && e.stored)
    ensures Next(s, e).origin == s.origin
  {
  }

  lemma ChainDeliver(s: State, m: Msg)
    requires LogInv(s) && m in s.net && m.AppendReq? && MailShape(s, m) && Fits(s.nodes[m.to].items, m.append)
    ensures Chain(s.origin, s.nodes[m.to].items + [m.append.entry])
  {
    FitExtends(s, m);
    assert Chain(s.origin, s.nodes[m.from].items);
    ChainPrefix(s.origin, s.nodes[m.from].items, m.append.entry.index);
  }

  lemma ChainStep(s: State, e: Event, i: nat)
    requires LogInv(s) && FreshOrigin(s, e) && i < |s.nodes|
    ensures Chain(Next(s, e).origin, Next(s, e).nodes[i].items)
  {
    if e.Originate? && Enabled(s, e) && e.stored {
      ChainOriginate(s, e, i);
    } else {
      OriginStays(s, e);
      ItemsStep(s, e, i);
      if NewItems(s, e, i) == [] {
        assert Next(s, e).nodes[i].items == s.nodes[i].items;
      } else {
        assert MailShape(s, e.m);
        ChainDeliver(s, e.m);
      }
    }
  }

  lemma RequestGrows(s: State, t: State, m: Msg)
    requires ListsGrow(s, t) && m.AppendReq? && RequestOk(s, m)
    ensures RequestOk(t, m)
  {
    assert s.nodes[m.from].items <= t.nodes[m.from].items;
  }

  lemma RequestMade(s: State, i: nat, w: nat, k: nat, to: nat, catchUp: bool)
    requires i < |s.nodes| && w < |s.nodes[i].others| && k < |s.nodes[i].items| && Chain(s.origin, s.nodes[i].items)
    ensures RequestOk(s, AppendReq(i, to, catchUp, AppendOf(s.nodes[i], s.nodes[i].others[w], s.nodes[i].items[k])))
  {
    PositionInChain(s.nodes[i].items, k, 0);
  }

  lemma RequestSent(s: State, e: Event, m: Msg)
    requires |s.nodes| == |s.camps| && m in Next(s, e).net && m !in s.net && m.AppendReq?
    ensures e.SendAppend? && Enabled(s, e)
    ensures m == AppendReq(e.i, m.to, e.catchUp, AppendOf(s.nodes[e.i], s.nodes[e.i].others[e.w], s.nodes[e.i].items[e.k]))
  {
  }

  lemma RequestStep(s: State, e: Event, m: Msg)
    requires LogInv(s) && m in Next(s, e).net && m.AppendReq? && ListsGrow(s, Next(s, e))
    ensures RequestOk(Next(s, e), m)
  {
    if m in s.net {
      assert RequestOk(s, m);
    } else {
      RequestSent(s, e, m);
      RequestMade(s, e.i, e.w, e.k, m.to, e.catchUp);
    }
    RequestGrows(s, Next(s, e), m);
  }

  lemma LogStep(s: State, e: Event)
    requires LogInv(s) && FreshOrigin(s, e)
    ensures LogInv(Next(s, e))
  {
    ShapeStep(s, e);
    ListsGrowStep(s, e);
    var t := Next(s, e);
    forall i | 0 <= i < |t.nodes| ensures Chain(t.origin, t.nodes[i].items) { ChainStep(s, e, i); }
    forall m | m in t.net && m.AppendReq? ensures RequestOk(t, m) { RequestStep(s, e, m); }
  }

  lemma {:induction false} AlwaysLog(n: nat, es: seq<Event>)
    requires FreshlyFed(n, es)
    ensures LogInv(After(n, es))
  {
    if es == [] {
      InitShape(n);
    } else {
      AlwaysLog(n, es[..|es| - 1]);
      LogStep(After(n, es[..|es| - 1]), es[|es| - 1]);
    }
  }

  lemma {:induction false} FirstItem(n: nat, es: seq<Event>, i: nat)
    requires i < n
    ensures [INIT_ITEM] <= After(n, es).nodes[i].items
  {
    if es != [] {
      FirstItem(n, es[..|es| - 1], i);
      AlwaysShape(n, es[..|es| - 1]);
      ListsGrowStep(After(n, es[..|es| - 1]), es[|es| - 1]);
    }
  }

  /** In a run whose originated entries all differ in (index, term), indexes count up from the initial
      item, and two lists that agree on the term at some index are equal up to it. */
  lemma LogMatching(n: nat, es: seq<Event>, i: nat, j: nat, k: nat)
    requires FreshlyFed(n, es) && i < n && j < n
    requires k < |After(n, es).nodes[i].items|
    ensures var a := After(n, es).nodes[i].items;
            var b := After(n, es).nodes[j].items;
            && a[k].index == k && a[0] == INIT_ITEM
            && (k < |b| && a[k].term == b[k].term ==> a[..k + 1] == b[..k + 1])
  {
    var s := After(n, es);
    AlwaysLog(n, es);
    FirstItem(n, es, i);
    assert Chain(s.origin, s.nodes[i].items) && Chain(s.origin, s.nodes[j].items);
    if k < |s.nodes[j].items| && s.nodes[i].items[k].term == s.nodes[j].items[k].term {
      ChainsMeet(s.origin, s.nodes[i].items, s.nodes[j].items, k);
    }
  }

  // ---------------------------------------------------------------------------
  // Leaders alone keep originated entries apart
  // ---------------------------------------------------------------------------

  /** The entry was originated by the winner of its term, who still holds it. */
  ghost predicate OriginOwned(s: State, index: nat, term: nat) {
    exists i :: 0 <= i < |s.nodes| && (term, i) in s.won && index < |s.nodes[i].items|
  }

  ghost predicate LeaderInv(s: State) {
    && Elections.Inv(s)
    && (forall i :: 0 <= i < |s.nodes| && s.nodes[i].role == Leader ==> (s.nodes[i].term, i) in s.won)
    && (forall k, t :: (k, t) in s.origin && k > 0 ==> OriginOwned(s, k, t))
    && (forall i :: 0 <= i < |s.nodes| ==> |s.nodes[i].items| == Tail(s.nodes[i].items).index + 1)
  }

  lemma WinsStay(s: State, e: Event)
    requires |s.nodes| == |s.camps|
    ensures forall w :: w in s.won ==> w in Next(s, e).won
  {
  }

  /** A leader was one before, in the same term, or has just won. */
  lemma LeaderSince(s: State, e: Event, i: nat)
    requires Shape(s) && LeaderOriginates(s, e) && i < |s.nodes| && Next(s, e).nodes[i].role == Leader
    ensures || (s.nodes[i].role == Leader && s.nodes[i].term == Next(s, e).nodes[i].term)
            || (Next(s, e).nodes[i].term, i) in Next(s, e).won
  {
    if e.DeliverAppend? && Enabled(s, e) {
      assert MailShape(s, e.m);
    }
    assert ShapeOk(s, i);
  }

  lemma LeadersStep(s: State, e: Event, i: nat)
    requires LeaderInv(s) && LeaderOriginates(s, e) && i < |s.nodes| && Next(s, e).nodes[i].role == Leader
    ensures (Next(s, e).nodes[i].term, i) in Next(s, e).won
  {
    LeaderSince(s, e, i);
    WinsStay(s, e);
  }

  lemma ItemCountStep(s: State, e: Event, i: nat)
    requires LeaderInv(s) && i < |s.nodes|
    ensures |Next(s, e).nodes[i].items| == Tail(Next(s, e).nodes[i].items).index + 1
  {
    var l, more := s.nodes[i].items, NewItems(s, e, i);
    ItemsStep(s, e, i);
    assert |l| == Tail(l).index + 1;
    assert more == [] ==> l + more == l;
    assert more != [] ==> Tail(l + more) == more[0] && more[0].index == Tail(l).index + 1;
  }

  lemma OwnedGrows(s: State, t: State, k: nat, term: nat)
    requires ListsGrow(s, t) && OriginOwned(s, k, term) && (forall w :: w in s.won ==> w in t.won)
    ensures OriginOwned(t, k, term)
  {
    var i :| 0 <= i < |s.nodes| && (term, i) in s.won && k < |s.nodes[i].items|;
    assert s.nodes[i].items <= t.nodes[i].items;
  }

  lemma NewlyOwned(s: State, e: Event, k: nat, t: nat)
    requires LeaderInv(s) && LeaderOriginates(s, e) && (k, t) in Next(s, e).origin && (k, t) !in s.origin
    ensures OriginOwned(Next(s, e), k, t)
  {
    assert (t, e.i) in Next(s, e).won;
  }

  lemma OwnedStep(s: State, e: Event, k: nat, t: nat)
    requires LeaderInv(s) && LeaderOriginates(s, e) && (k, t) in Next(s, e).origin && k > 0 && ListsGrow(s, Next(s, e))
    ensures OriginOwned(Next(s, e), k, t)
  {
    if (k, t) in s.origin {
      WinsStay(s, e);
      OwnedGrows(s, Next(s, e), k, t);
    } else {
      NewlyOwned(s, e, k, t);
    }
  }

  lemma LeaderStep(s: State, e: Event)
    requires LeaderInv(s) && KeepsTerm(s, e) && Rechecks(s, e) && LeaderOriginates(s, e)
    ensures LeaderInv(Next(s, e))
    ensures FreshOrigin(s, e)
  {
    Elections.InvStep(s, e);
    ListsGrowStep(s, e);
    var t := Next(s, e);
    forall i | 0 <= i < |t.nodes|
      ensures |t.nodes[i].items| == Tail(t.nodes[i].items).index + 1
    {
      ItemCountStep(s, e, i);
    }
    forall i | 0 <= i < |t.nodes| && t.nodes[i].role == Leader
      ensures (t.nodes[i].term, i) in t.won
    {
      LeadersStep(s, e, i);
    }
    forall k, u | (k, u) in t.origin && k > 0 ensures OriginOwned(t, k, u) { OwnedStep(s, e, k, u); }
    if e.Originate? && Enabled(s, e) && e.stored {
      var k := Tail(s.nodes[e.i].items).index + 1;
      if (k, e.term) in s.origin {
        assert OriginOwned(s, k, e.term);
        var j :| 0 <= j < |s.nodes| && (e.term, j) in s.won && k < |s.nodes[j].items|;
        Elections.SafeState(s, e.term, e.i, j);
      }
    }
  }

  lemma {:induction false} AlwaysLeader(n: nat, es: seq<Event>)
    requires TermKeeping(n, es) && Rechecking(n, es) && LeaderFed(n, es)
    ensures LeaderInv(After(n, es)) && FreshlyFed(n, es)
  {
    if es == [] {
      InitShape(n);
    } else {
      AlwaysLeader(n, es[..|es| - 1]);
      LeaderStep(After(n, es[..|es| - 1]), es[|es| - 1]);
    }
  }

  /** Where elections are safe and only leaders feed their own term, no two originated entries share
      (index, term), so log matching needs no assumption about entries. */
  lemma LeaderLogMatching(n: nat, es: seq<Event>, i: nat, j: nat, k: nat)
    requires TermKeeping(n, es) && Rechecking(n, es) && LeaderFed(n, es) && i < n && j < n
    requires k < |After(n, es).nodes[i].items| && k < |After(n, es).nodes[j].items|
    requires After(n, es).nodes[i].items[k].term == After(n, es).nodes[j].items[k].term
    ensures After(n, es).nodes[i].items[..k + 1] == After(n, es).nodes[j].items[..k + 1]
  {
    AlwaysLeader(n, es);
    LogMatching(n, es, i, j, k);
  }

  // ---------------------------------------------------------------------------
  // The accept index
  // ---------------------------------------------------------------------------

  /** Node j holds everything of node i's list through index a. */
  ghost predicate Shares(s: State, i: nat, j: nat, a: nat) {
    && i < |s.nodes| && j < |s.nodes|
    && a < |s.nodes[i].items| && a < |s.nodes[j].items|
    && s.nodes[i].items[..a + 1] == s.nodes[j].items[..a + 1]
  }

  /** The nodes holding node i's own item at index k. */
  ghost function Holders(s: State, i: nat, k: nat): set<nat>
    requires i < |s.nodes| && k < |s.nodes[i].items|
  {
    set j | 0 <= j < |s.nodes| && k < |s.nodes[j].items| && s.nodes[j].items[k] == s.nodes[i].items[k]
  }

  ghost predicate Backed(s: State, i: nat, k: nat) {
    i < |s.nodes| && k < |s.nodes[i].items| && 2 * |Holders(s, i, k)| > |s.nodes|
  }

  ghost predicate WorkOk(s: State, i: nat)
    requires i < |s.nodes|
  {
    forall w :: 0 <= w < |s.nodes[i].others| ==>
                  && Shares(s, i, s.nodes[i].others[w].peer, s.nodes[i].others[w].acceptIndex)
                  && s.nodes[i].others[w].commitIndex <= s.nodes[i].others[w].acceptIndex
  }

  ghost predicate AckOk(s: State, m: Msg)
    requires m.AppendRep?
  {
    m.ack.accept ==> Shares(s, m.to, m.from, m.ack.appendIndex) && m.ack.commitIndex <= m.ack.appendIndex
  }

  ghost predicate BackedTo(s: State, i: nat, a: nat) {
    forall k :: 1 <= k <= a ==> Backed(s, i, k)
  }

  ghost predicate AcceptInv(s: State) {
    && LogInv(s)
    && (forall i :: 0 <= i < |s.nodes| ==> WorkOk(s, i))
    && (forall m :: m in s.net && m.AppendRep? ==> AckOk(s, m))
    && (forall i :: 0 <= i < |s.nodes| ==> BackedTo(s, i, s.nodes[i].acceptIndex))
    && (forall i :: 0 <= i < |s.nodes| ==> s.nodes[i].commitIndex < |s.nodes[i].items|)
  }

  lemma SharesGrow(s: State, t: State, i: nat, j: nat, a: nat)
    requires ListsGrow(s, t) && Shares(s, i, j, a)
    ensures Shares(t, i, j, a)
  {
    assert s.nodes[i].items <= t.nodes[i].items && s.nodes[j].items <= t.nodes[j].items;
    assert t.nodes[i].items[..a + 1] == s.nodes[i].items[..a + 1];
    assert t.nodes[j].items[..a + 1] == s.nodes[j].items[..a + 1];
  }

  /** Lists only grow, so a majority that holds an item holds it forever. */
  lemma BackedGrows(s: State, t: State, i: nat, k: nat)
    requires ListsGrow(s, t) && Backed(s, i, k)
    ensures Backed(t, i, k) && t.nodes[i].items[k] == s.nodes[i].items[k]
  {
    assert s.nodes[i].items <= t.nodes[i].items;
    forall j | j in Holders(s, i, k)
      ensures j in Holders(t, i, k)
    {
      assert s.nodes[j].items <= t.nodes[j].items;
    }
    SubsetSize(Holders(s, i, k), Holders(t, i, k));
  }

  /** The peers whose entry in xs is above `a`. */
  ghost function PeersAbove(ws: seq<WorkNode>, xs: seq<nat>, a: nat): (ps: set<nat>)
    requires |xs| == |ws|
  {
    set w | 0 <= w < |ws| && xs[w] > a :: ws[w].peer
  }

  lemma PeersAboveRest(ws: seq<WorkNode>, xs: seq<nat>, a: nat)
    requires |xs| == |ws| > 0
    ensures PeersAbove(ws, xs, a) == PeersAbove(ws[1..], xs[1..], a) + if xs[0] > a then {ws[0].peer} else {}
  {
    forall p | p in PeersAbove(ws, xs, a)
      ensures p in PeersAbove(ws[1..], xs[1..], a) + if xs[0] > a then {ws[0].peer} else {}
    {
      var w :| 0 <= w < |ws| && xs[w] > a && ws[w].peer == p;
      assert w > 0 ==> xs[1..][w - 1] > a && ws[1..][w - 1].peer == p;
    }
  }

  lemma {:induction false} CountIsPeers(ws: seq<WorkNode>, xs: seq<nat>, a: nat)
    requires DistinctPeers(ws) && |xs| == |ws|
    ensures CountAbove(xs, a) == |PeersAbove(ws, xs, a)|
  {
    if ws != [] {
      CountIsPeers(ws[1..], xs[1..], a);
      PeersAboveRest(ws, xs, a);
      assert ws[0].peer !in PeersAbove(ws[1..], xs[1..], a);
    }
  }

  lemma SharesHolds(s: State, i: nat, j: nat, a: nat, k: nat)
    requires Shares(s, i, j, a) && k <= a
    ensures k < |s.nodes[i].items| && j in Holders(s, i, k)
  {
    assert s.nodes[i].items[..a + 1][k] == s.nodes[j].items[..a + 1][k];
  }

  lemma PeersHold(s: State, i: nat, ws: seq<WorkNode>, xs: seq<nat>, a: nat, p: nat)
    requires i < |s.nodes| && |xs| == |ws| && p in PeersAbove(ws, xs, a)
    requires forall w :: 0 <= w < |ws| ==> Shares(s, i, ws[w].peer, xs[w])
    ensures a + 1 < |s.nodes[i].items| && p in Holders(s, i, a + 1)
  {
    var w :| 0 <= w < |ws| && xs[w] > a && ws[w].peer == p;
    SharesHolds(s, i, p, xs[w], a + 1);
  }

  /** If the peers share node i's list as far as xs says, a counted majority of peers means that a majority
      of the cluster holds the next item. */
  lemma CountBacks(s: State, i: nat, ws: seq<WorkNode>, xs: seq<nat>, a: nat)
    requires i < |s.nodes| && |xs| == |ws| && |ws| + 1 == |s.nodes| && DistinctPeers(ws)
    requires forall w :: 0 <= w < |ws| ==> Shares(s, i, ws[w].peer, xs[w])
    requires 2 * CountAbove(xs, a) > |ws| + 1
    ensures Backed(s, i, a + 1)
  {
    var ps := PeersAbove(ws, xs, a);
    CountIsPeers(ws, xs, a);
    var first :| first in ps;
    PeersHold(s, i, ws, xs, a, first);
    forall p | p in ps ensures p in Holders(s, i, a + 1) { PeersHold(s, i, ws, xs, a, p); }
    SubsetSize(ps, Holders(s, i, a + 1));
  }

  /** A peer table stays good while lists grow, with one row replaced by what an accept reported. */
  lemma WorkGrows(s: State, t: State, i: nat, w: nat, row: WorkNode)
    requires ListsGrow(s, t) && i < |s.nodes| && WorkOk(s, i)
    requires w < |s.nodes[i].others| ==> Shares(s, i, row.peer, row.acceptIndex) && row.commitIndex <= row.acceptIndex
    requires t.nodes[i].others == if w < |s.nodes[i].others| then s.nodes[i].others[w := row] else s.nodes[i].others
    ensures WorkOk(t, i)
  {
    forall v | 0 <= v < |t.nodes[i].others|
      ensures Shares(t, i, t.nodes[i].others[v].peer, t.nodes[i].others[v].acceptIndex)
    {
      SharesGrow(s, t, i, t.nodes[i].others[v].peer, t.nodes[i].others[v].acceptIndex);
    }
  }

  lemma WorkStep(s: State, e: Event, i: nat)
    requires AcceptInv(s) && i < |s.nodes| && ListsGrow(s, Next(s, e))
    ensures WorkOk(Next(s, e), i)
  {
    var t := Next(s, e);
    if e.CollectAppend? && Enabled(s, e) && i == e.m.to {
      assert AckOk(s, e.m);
      WorkGrows(s, t, i, e.w, t.nodes[i].others[e.w]);
    } else {
      TablesUntouched(s, e, i);
      WorkGrows(s, t, i, |s.nodes[i].others|, WorkNode(0, 0, 0));
    }
  }

  lemma AckSent(s: State, e: Event, m: Msg)
    requires |s.nodes| == |s.camps| && m in Next(s, e).net && m !in s.net && m.AppendRep? && m.ack.accept
    ensures e.DeliverAppend? && Enabled(s, e) && Fits(s.nodes[e.m.to].items, e.m.append)
    ensures m.from == e.m.to && m.to == e.m.from && m.ack.appendIndex == e.m.append.entry.index
    ensures Next(s, e).nodes[m.from].items == s.nodes[m.from].items + [e.m.append.entry]
    ensures m.ack.commitIndex <= s.nodes[m.from].commitIndex + 1
    ensures m.ack.commitIndex > s.nodes[m.from].commitIndex ==> Tail(s.nodes[m.from].items).index > s.nodes[m.from].commitIndex
  {
  }

  lemma AckNew(s: State, e: Event, m: Msg)
    requires AcceptInv(s) && m in Next(s, e).net && m !in s.net && m.AppendRep? && m.ack.accept
    requires ListsGrow(s, Next(s, e))
    ensures AckOk(Next(s, e), m)
  {
    var t, k := Next(s, e), m.ack.appendIndex;
    AckSent(s, e, m);
    assert MailShape(s, e.m);
    FitExtends(s, e.m);
    assert Chain(s.origin, s.nodes[m.from].items);
    assert s.nodes[m.to].items <= t.nodes[m.to].items;
    assert t.nodes[m.from].items[..k + 1] == t.nodes[m.from].items == t.nodes[m.to].items[..k + 1];
  }

  lemma AckStep(s: State, e: Event, m: Msg)
    requires AcceptInv(s) && m in Next(s, e).net && m.AppendRep? && ListsGrow(s, Next(s, e))
    ensures AckOk(Next(s, e), m)
  {
    if m.ack.accept {
      if m in s.net {
        assert AckOk(s, m);
        SharesGrow(s, Next(s, e), m.to, m.from, m.ack.appendIndex);
      } else {
        AckNew(s, e, m);
      }
    }
  }

  lemma BackedToGrows(s: State, t: State, i: nat, a: nat)
    requires ListsGrow(s, t) && i < |s.nodes| && BackedTo(s, i, a)
    ensures BackedTo(t, i, a)
  {
    forall k | 1 <= k <= a ensures Backed(t, i, k) { BackedGrows(s, t, i, k); }
  }

  lemma AcceptByCount(s: State, e: Event)
    requires |s.nodes| == |s.camps| && e.CollectAppend? && Enabled(s, e)
    ensures var (n, n') := (s.nodes[e.m.to], Next(s, e).nodes[e.m.to]);
            n'.acceptIndex == n.acceptIndex
            || (n'.acceptIndex == n.acceptIndex + 1
                && 2 * CountAbove(RecordedAccepts(n'.others), n.acceptIndex) > |n'.others| + 1)
  {
  }

  lemma BackedOneMore(t: State, i: nat, a: nat)
    requires Shape(t) && i < |t.nodes| && WorkOk(t, i) && BackedTo(t, i, a)
    requires 2 * CountAbove(RecordedAccepts(t.nodes[i].others), a) > |t.nodes[i].others| + 1
    ensures BackedTo(t, i, a + 1)
  {
    assert ShapeOk(t, i);
    CountBacks(t, i, t.nodes[i].others, RecordedAccepts(t.nodes[i].others), a);
  }

  lemma BackedCollect(s: State, e: Event)
    requires Shape(s) && e.CollectAppend? && Enabled(s, e) && Shape(Next(s, e)) && WorkOk(Next(s, e), e.m.to)
    requires BackedTo(Next(s, e), e.m.to, s.nodes[e.m.to].acceptIndex)
    ensures BackedTo(Next(s, e), e.m.to, Next(s, e).nodes[e.m.to].acceptIndex)
  {
    AcceptByCount(s, e);
    if Next(s, e).nodes[e.m.to].acceptIndex != s.nodes[e.m.to].acceptIndex {
      BackedOneMore(Next(s, e), e.m.to, s.nodes[e.m.to].acceptIndex);
    }
  }

  lemma BackedStep(s: State, e: Event, i: nat)
    requires AcceptInv(s) && i < |s.nodes| && Shape(Next(s, e)) && ListsGrow(s, Next(s, e)) && WorkOk(Next(s, e), i)
    ensures BackedTo(Next(s, e), i, Next(s, e).nodes[i].acceptIndex)
  {
    assert BackedTo(s, i, s.nodes[i].acceptIndex);
    BackedToGrows(s, Next(s, e), i, s.nodes[i].acceptIndex);
    if e.CollectAppend? && Enabled(s, e) && e.m.to == i {
      BackedCollect(s, e);
    } else {
      TablesUntouched(s, e, i);
    }
  }

  lemma {:induction false} AboveWitness(xs: seq<nat>, c: nat) returns (w: nat)
    requires CountAbove(xs, c) > 0
    ensures w < |xs| && xs[w] > c
  {
    if xs[0] > c {
      w := 0;
    } else {
      w := AboveWitness(xs[1..], c);
      w := w + 1;
    }
  }

  /** The events in which a node looks for a majority of recorded commits. */
  ghost predicate CountsCommits(s: State, e: Event, i: nat)
    requires |s.nodes| == |s.camps|
  {
    Enabled(s, e) && ((e.CollectAppend? && e.m.to == i) || (e.CheckCommits? && e.i == i))
  }

  lemma CommitByCount(s: State, e: Event, i: nat)
    requires |s.nodes| == |s.camps| && i < |s.nodes| && CountsCommits(s, e, i)
    ensures var (n, n') := (s.nodes[i], Next(s, e).nodes[i]);
            n'.commitIndex == n.commitIndex
            || (n'.commitIndex == n.commitIndex + 1
                && 2 * CountAbove(RecordedCommits(n'.others), n.commitIndex) > |n'.others| + 1)
  {
  }

  /** Raising the commit index past the recorded commits of a majority stays within the list. */
  lemma CommitStep(s: State, e: Event, i: nat)
    requires AcceptInv(s) && i < |s.nodes| && ListsGrow(s, Next(s, e)) && WorkOk(Next(s, e), i)
    ensures Next(s, e).nodes[i].commitIndex < |Next(s, e).nodes[i].items|
  {
    var t := Next(s, e);
    assert s.nodes[i].items <= t.nodes[i].items;
    if CountsCommits(s, e, i) {
      CommitByCount(s, e, i);
      if t.nodes[i].commitIndex != s.nodes[i].commitIndex {
        var w := AboveWitness(RecordedCommits(t.nodes[i].others), s.nodes[i].commitIndex);
        assert Shares(t, i, t.nodes[i].others[w].peer, t.nodes[i].others[w].acceptIndex);
      }
    } else {
      assert Chain(s.origin, s.nodes[i].items);
    }
  }

  lemma AcceptStep(s: State, e: Event)
    requires AcceptInv(s) && FreshOrigin(s, e)
    ensures AcceptInv(Next(s, e))
  {
    LogStep(s, e);
    ListsGrowStep(s, e);
    var t := Next(s, e);
    forall m | m in t.net && m.AppendRep? ensures AckOk(t, m) { AckStep(s, e, m); }
    forall i | 0 <= i < |t.nodes|
      ensures WorkOk(t, i) && BackedTo(t, i, t.nodes[i].acceptIndex) && t.nodes[i].commitIndex < |t.nodes[i].items|
    {
      WorkStep(s, e, i);
      BackedStep(s, e, i);
      CommitStep(s, e, i);
    }
  }

  lemma InitAccept(n: nat)
    ensures AcceptInv(Init(n))
  {
    InitShape(n);
    forall i | 0 <= i < n ensures WorkOk(Init(n), i) {
      OthersShape(i, n);
    }
  }

  lemma {:induction false} AlwaysAccept(n: nat, es: seq<Event>)
    requires FreshlyFed(n, es)
    ensures AcceptInv(After(n, es))
  {
    if es == [] {
      InitAccept(n);
    } else {
      AlwaysAccept(n, es[..|es| - 1]);
      AcceptStep(After(n, es[..|es| - 1]), es[|es| - 1]);
    }
  }

  lemma GrowTransitive(a: State, b: State, c: State)
    requires ListsGrow(a, b) && ListsGrow(b, c)
    ensures ListsGrow(a, c)
  {
    forall i | 0 <= i < |a.nodes| ensures a.nodes[i].items <= c.nodes[i].items {
      assert a.nodes[i].items <= b.nodes[i].items <= c.nodes[i].items;
    }
  }

  lemma {:induction false} RunsGrow(n: nat, es: seq<Event>, more: seq<Event>)
    ensures ListsGrow(After(n, es), After(n, es + more))
  {
    if more == [] {
      assert es + more == es;
    } else {
      var front := more[..|more| - 1];
      AfterLast(n, es, more);
      RunsGrow(n, es, front);
      AlwaysShape(n, es + front);
      ListsGrowStep(After(n, es + front), more[|more| - 1]);
      GrowTransitive(After(n, es), After(n, es + front), After(n, es + more));
    }
  }

  /** Whatever a node's accept index covers is on more than half of the cluster, as the node itself holds
      it, and stays there however the run goes on. */
  lemma AcceptDurable(n: nat, es: seq<Event>, more: seq<Event>, i: nat, k: nat)
    requires FreshlyFed(n, es) && i < n && 1 <= k <= After(n, es).nodes[i].acceptIndex
    ensures k < |After(n, es).nodes[i].items|
    ensures Backed(After(n, es + more), i, k)
    ensures After(n, es + more).nodes[i].items[k] == After(n, es).nodes[i].items[k]
  {
    AlwaysAccept(n, es);
    RunsGrow(n, es, more);
    var s := After(n, es);
    assert BackedTo(s, i, s.nodes[i].acceptIndex);
    assert Backed(s, i, k);
    BackedGrows(s, After(n, es + more), i, k);
  }

  /** Two majorities cannot hold different items at one index. */
  lemma HoldersMeet(s: State, i: nat, j: nat, k: nat)
    requires Backed(s, i, k) && Backed(s, j, k)
    ensures s.nodes[i].items[k] == s.nodes[j].items[k]
  {
    var v := Elections.MajoritiesMeet(Holders(s, i, k), Holders(s, j, k), |s.nodes|);
  }
}
