/**
 What the protocol achieves when its messages get through: the outcome of an election call, of a whole
 election, of a heartbeat, of an append, and of a round of appends, from any state a run can reach.
 */
module Rounds {
  import opened Basics
  import opened NodeModel
  import opened Cluster
  import opened Replication
  import Elections

  /** Events one after the other. */
  ghost function Perform(s: State, es: seq<Event>): (t: State)
    requires |s.nodes| == |s.camps|
    ensures |t.nodes| == |t.camps| == |s.nodes|
    decreases |es|
  {
    if es == [] then s else Perform(Next(s, es[0]), es[1..])
  }

  lemma Perform1(s: State, es: seq<Event>, a: Event)
    requires |s.nodes| == |s.camps| && es == [a]
    ensures Perform(s, es) == Next(s, a)
  {
    assert Perform(s, es) == Perform(Next(s, a), es[1..]);
  }

  lemma Perform2(s: State, es: seq<Event>, a: Event, b: Event)
    requires |s.nodes| == |s.camps| && es == [a, b]
    ensures Perform(s, es) == Next(Next(s, a), b)
  {
    Perform1(Next(s, a), es[1..], b);
  }

  lemma Perform3(s: State, es: seq<Event>, a: Event, b: Event, c: Event)
    requires |s.nodes| == |s.camps| && es == [a, b, c]
    ensures Perform(s, es) == Next(Next(Next(s, a), b), c)
  {
    Perform2(Next(s, a), es[1..], b, c);
  }

  /** What is performed on the state of a run is that run, continued. */
  lemma {:induction false} PerformContinues(n: nat, es: seq<Event>, more: seq<Event>)
    ensures Perform(After(n, es), more) == After(n, es + more)
    decreases |more|
  {
    if more == [] {
      assert es + more == es;
    } else {
      AfterLast(n, es, more[..1]);
      assert es + more[..0] == es && more[..1] == [more[0]];
      PerformContinues(n, es + more[..1], more[1..]);
      assert es + more[..1] + more[1..] == es + more;
    }
  }

  // ---------------------------------------------------------------------------
  // An election
  // ---------------------------------------------------------------------------

  /** Voter j is of an earlier term than candidate i, and its list reaches no further than i's accept index. */
  ghost predicate Grants(s: State, i: nat, j: nat)
    requires i < |s.nodes| && j < |s.nodes|
  {
    s.nodes[j].term < s.nodes[i].term && Tail(s.nodes[j].items).index <= s.nodes[i].acceptIndex
  }

  /** Node j is of a later term, or of the same term and at a higher position. */
  ghost predicate Outranks(s: State, j: nat, i: nat)
    requires i < |s.nodes| && j < |s.nodes|
  {
    s.nodes[j].term > s.nodes[i].term || (s.nodes[j].term == s.nodes[i].term && j > i)
  }

  /** Candidate i calls voter j, and takes the answer. */
  ghost function Call(s: State, i: nat, j: nat): seq<Event>
    requires i < |s.nodes| == |s.camps| && j < |s.nodes|
  {
    var n, round := s.nodes[i], s.camps[i].round;
    var q := ElectionRequest(i, n.term, n.acceptIndex);
    [SendElect(i, j), DeliverElect(ElectReq(i, j, round, q)),
     CollectElect(ElectRep(j, i, round, HandleElection(s.nodes[j], q).1))]
  }

  ghost predicate Calling(s: State, i: nat, j: nat) {
    Shape(s) && i < |s.nodes| && j < |s.nodes| && j != i && j in s.camps[i].unsent && j !in s.camps[i].awaiting
  }

  /** A voter that grants has moved to the candidate's term and follows it, and is counted; one that does not
      has stayed as it was, and made the candidate a follower exactly if it outranks it. */
  ghost predicate Called(s: State, t: State, i: nat, j: nat)
    requires i < |s.nodes| == |s.camps| == |t.nodes| && j < |s.nodes|
  {
    var n, c := s.nodes[i], s.camps[i];
    && t.nodes[j] == (if Grants(s, i, j)
                      then s.nodes[j].(term := n.term, leader := Some(i), role := Follower) else s.nodes[j])
    && t.nodes[i] == n.(oath := n.oath + if Grants(s, i, j) then 1 else 0,
                        role := if Outranks(s, j, i) then Follower else n.role)
    && (forall v :: 0 <= v < |s.nodes| && v != i && v != j ==> t.nodes[v] == s.nodes[v])
    && t.camps == s.camps[i := c.(unsent := c.unsent - {j},
                                  granted := if Grants(s, i, j) then c.granted + {j} else c.granted)]
    && t.won == s.won
    && (Grants(s, i, j) ==> (n.term, j) in t.voted && t.voted[(n.term, j)] == i)
  }

  /** An election call that gets through, and its answer. */
  lemma CallOutcome(s: State, i: nat, j: nat)
    requires Calling(s, i, j)
    ensures Called(s, Perform(s, Call(s, i, j)), i, j)
  {
    var es := Call(s, i, j);
    Perform3(s, es, es[0], es[1], es[2]);
    assert ShapeOk(s, i) && ShapeOk(s, j);
    var c := s.camps[i];
    assert c.awaiting + {j} - {j} == c.awaiting;
  }

  ghost predicate Distinct(order: seq<nat>) {
    forall a, b :: 0 <= a < b < |order| ==> order[a] != order[b]
  }

  ghost predicate Below(order: seq<nat>, n: nat) {
    forall a :: 0 <= a < |order| ==> order[a] < n
  }

  lemma {:induction false} PerformAppend(s: State, a: seq<Event>, b: seq<Event>)
    requires |s.nodes| == |s.camps|
    ensures Perform(s, a + b) == Perform(Perform(s, a), b)
    decreases |a|
  {
    if a == [] {
      assert a + b == b;
    } else {
      assert (a + b)[1..] == a[1..] + b;
      PerformAppend(Next(s, a[0]), a[1..], b);
    }
  }

  lemma {:induction false} PerformShape(s: State, es: seq<Event>)
    requires Shape(s)
    ensures Shape(Perform(s, es))
    decreases |es|
  {
    if es != [] {
      ShapeStep(s, es[0]);
      PerformShape(Next(s, es[0]), es[1..]);
    }
  }

  /** Candidate i's calls, one voter after the other. */
  ghost function Calls(s: State, i: nat, order: seq<nat>): seq<Event>
    requires i < |s.nodes| == |s.camps| && Below(order, |s.nodes|)
    decreases |order|
  {
    if order == [] then []
    else Call(s, i, order[0]) + Calls(Perform(s, Call(s, i, order[0])), i, order[1..])
  }

  /** The voters in `order` that grant. */
  ghost function Granting(s: State, i: nat, order: seq<nat>): set<nat>
    requires i < |s.nodes|
  {
    set j | j in order && j < |s.nodes| && Grants(s, i, j)
  }

  ghost predicate Outranked(s: State, i: nat, order: seq<nat>)
    requires i < |s.nodes|
  {
    exists j :: j in order && j < |s.nodes| && Outranks(s, j, i)
  }

  ghost function AsSet(order: seq<nat>): set<nat> {
    set j | j in order
  }

  /** The nodes once i has called the voters in `order`. */
  ghost predicate NodesCalled(s: State, t: State, i: nat, order: seq<nat>)
    requires i < |s.nodes| == |t.nodes|
  {
    && (forall j :: 0 <= j < |s.nodes| && j != i ==>
          t.nodes[j] == if j in order && Grants(s, i, j)
                        then s.nodes[j].(term := s.nodes[i].term, leader := Some(i), role := Follower) else s.nodes[j])
    && t.nodes[i] == s.nodes[i].(oath := s.nodes[i].oath + |Granting(s, i, order)|,
                                 role := if Outranked(s, i, order) then Follower else s.nodes[i].role)
  }

  ghost predicate CampaignCalled(s: State, t: State, i: nat, order: seq<nat>)
    requires i < |s.nodes| == |s.camps|
  {
    var c := s.camps[i];
    t.camps == s.camps[i := c.(unsent := c.unsent - AsSet(order), granted := c.granted + Granting(s, i, order))]
  }

  /** Of the others nothing that matters to them was changed by the first call. */
  lemma GrantingRest(s: State, i: nat, order: seq<nat>, t: State)
    requires order != [] && Distinct(order) && i < |s.nodes| == |t.nodes| == |s.camps| && i !in order && order[0] < |s.nodes|
    requires Called(s, t, i, order[0])
    ensures AsSet(order) == AsSet(order[1..]) + {order[0]}
    ensures Granting(s, i, order)
         == Granting(t, i, order[1..]) + if Grants(s, i, order[0]) then {order[0]} else {}
    ensures order[0] !in Granting(t, i, order[1..])
    ensures Outranked(s, i, order) <==> Outranks(s, order[0], i) || Outranked(t, i, order[1..])
  {
    forall j | j in order[1..] && j < |s.nodes|
      ensures j != order[0] && j in order && (Grants(t, i, j) <==> Grants(s, i, j)) && (Outranks(t, j, i) <==> Outranks(s, j, i))
    {
    }
    forall j | j in order ensures j == order[0] || j in order[1..] {}
  }

  lemma CampaignCompose(s: State, u: State, t: State, i: nat, order: seq<nat>)
    requires i < |s.nodes| == |s.camps| == |u.nodes| == |u.camps| && order != [] && Distinct(order) && i !in order
    requires order[0] < |s.nodes| && Called(s, u, i, order[0]) && CampaignCalled(u, t, i, order[1..])
    ensures CampaignCalled(s, t, i, order)
  {
    GrantingRest(s, i, order, u);
    var c := s.camps[i];
    assert c.unsent - {order[0]} - AsSet(order[1..]) == c.unsent - AsSet(order);
    assert u.camps[i].granted + Granting(u, i, order[1..]) == c.granted + Granting(s, i, order);
  }

  lemma NodesCompose(s: State, u: State, t: State, i: nat, order: seq<nat>)
    requires i < |s.nodes| == |u.nodes| == |t.nodes| == |s.camps| && order != [] && Distinct(order) && i !in order
    requires order[0] < |s.nodes| && Called(s, u, i, order[0]) && NodesCalled(u, t, i, order[1..])
    ensures NodesCalled(s, t, i, order)
  {
    GrantingRest(s, i, order, u);
    assert order[0] !in order[1..];
    forall j | 0 <= j < |s.nodes| && j != i && j != order[0]
      ensures (j in order <==> j in order[1..]) && (Grants(u, i, j) <==> Grants(s, i, j))
    {
    }
  }

  lemma StillCalling(s: State, u: State, i: nat, order: seq<nat>)
    requires Shape(s) && Shape(u) && i < |s.nodes| == |u.nodes| && order != [] && Distinct(order)
    requires forall j :: j in order ==> Calling(s, i, j)
    requires order[0] < |s.nodes| && Called(s, u, i, order[0])
    ensures i !in order && forall j :: j in order[1..] ==> Calling(u, i, j)
  {
    forall j | j in order[1..] ensures Calling(u, i, j) { assert j in order && Calling(s, i, j); }
  }

  lemma {:induction false} CallsOutcome(s: State, i: nat, order: seq<nat>)
    requires Shape(s) && i < |s.nodes| && Distinct(order) && Below(order, |s.nodes|)
    requires forall j :: j in order ==> Calling(s, i, j)
    ensures var t := Perform(s, Calls(s, i, order));
            NodesCalled(s, t, i, order) && CampaignCalled(s, t, i, order) && t.won == s.won
    decreases |order|
  {
    if order == [] {
      assert Granting(s, i, order) == {} && AsSet(order) == {};
      var c := s.camps[i];
      assert c.(unsent := c.unsent - {}, granted := c.granted + {}) == c;
      assert s.camps[i := c] == s.camps;
    } else {
      var j, rest := order[0], order[1..];
      assert Calling(s, i, j);
      var call := Call(s, i, j);
      var u := Perform(s, call);
      CallOutcome(s, i, j);
      PerformShape(s, call);
      StillCalling(s, u, i, order);
      CallsOutcome(u, i, rest);
      PerformAppend(s, call, Calls(u, i, rest));
      var t := Perform(u, Calls(u, i, rest));
      NodesCompose(s, u, t, i, order);
      CampaignCompose(s, u, t, i, order);
    }
  }

  lemma {:induction false} PeerCount(ws: seq<WorkNode>)
    requires DistinctPeers(ws)
    ensures |set w | w in ws :: w.peer| == |ws|
  {
    if ws != [] {
      PeerCount(ws[1..]);
      assert (set w | w in ws :: w.peer) == (set w | w in ws[1..] :: w.peer) + {ws[0].peer};
    }
  }

  /** The peers a node calls are all the others. */
  lemma PeersAreOthers(s: State, i: nat, j: nat)
    requires Shape(s) && i < |s.nodes|
    ensures j in (set w | w in s.nodes[i].others :: w.peer) <==> j < |s.nodes| && j != i
  {
    assert ShapeOk(s, i);
    var peers := set w | w in s.nodes[i].others :: w.peer;
    PeerCount(s.nodes[i].others);
    if j < |s.nodes| && j != i && j !in peers {
      Elections.BelowSize(peers + {i} + {j}, |s.nodes|);
    }
  }

  /** `election()` of node i: it begins, calls every other node, in some order, and ends. */
  ghost function Election(s: State, i: nat, order: seq<nat>): seq<Event>
    requires i < |s.nodes| == |s.camps| && Below(order, |s.nodes|)
  {
    [Begin(i)] + Calls(Next(s, Begin(i)), i, order) + [Finish(i)]
  }

  /** The other nodes that are not yet beyond the term i stood in, and whose lists i's accept index reaches. */
  ghost function Voters(s: State, i: nat): set<nat>
    requires i < |s.nodes|
  {
    set j | 0 <= j < |s.nodes| && j != i && s.nodes[j].term <= s.nodes[i].term
            && Tail(s.nodes[j].items).index <= s.nodes[i].acceptIndex
  }

  /** Node j is already beyond the term that i campaigns for, or in it and at a higher position. */
  ghost predicate Ahead(s: State, i: nat, j: nat)
    requires i < |s.nodes| && j < |s.nodes|
  {
    s.nodes[j].term > s.nodes[i].term + 1 || (s.nodes[j].term == s.nodes[i].term + 1 && j > i)
  }

  lemma BegunCounts(s: State, i: nat, order: seq<nat>)
    requires Shape(s) && i < |s.nodes| && Enabled(s, Begin(i))
    requires forall j :: j in order <==> j < |s.nodes| && j != i
    ensures var u := Next(s, Begin(i));
            && Granting(u, i, order) == Voters(s, i) && i !in Voters(s, i)
            && (Outranked(u, i, order) <==> exists j :: 0 <= j < |s.nodes| && j != i && Ahead(s, i, j))
  {
    var u := Next(s, Begin(i));
    forall j | 0 <= j < |s.nodes| && j != i
      ensures (Grants(u, i, j) <==> j in Voters(s, i)) && (Outranks(u, j, i) <==> Ahead(s, i, j))
    {
    }
    if Outranked(u, i, order) {
      var j :| j in order && j < |u.nodes| && Outranks(u, j, i);
      assert Ahead(s, i, j);
    }
    if j :| 0 <= j < |s.nodes| && j != i && Ahead(s, i, j) {
      assert j in order && Outranks(u, j, i);
    }
  }

  /** A campaign that has begun is about to call all the others. */
  lemma BegunCalls(s: State, i: nat)
    requires Shape(s) && i < |s.nodes| && Enabled(s, Begin(i))
    ensures var u := Next(s, Begin(i));
            && Shape(u) && u.won == s.won
            && u.camps[i].active && u.camps[i].awaiting == {} && u.camps[i].granted == {i}
            && forall j :: j in u.camps[i].unsent <==> 0 <= j < |s.nodes| && j != i
  {
    ShapeStep(s, Begin(i));
    var u := Next(s, Begin(i));
    forall j: nat ensures j in u.camps[i].unsent <==> j < |s.nodes| && j != i { PeersAreOthers(s, i, j); }
  }

  /** Where the candidate stands once every call has been answered. */
  lemma AllCalled(s: State, i: nat, order: seq<nat>)
    requires Shape(s) && i < |s.nodes| && Enabled(s, Begin(i)) && Distinct(order) && Below(order, |s.nodes|)
    requires forall j :: j in order <==> j < |s.nodes| && j != i
    ensures var u := Next(s, Begin(i));
            var v := Perform(u, Calls(u, i, order));
            && NodesCalled(u, v, i, order) && v.won == s.won
            && v.camps[i].active && v.camps[i].unsent == {} && v.camps[i].awaiting == {}
            && v.camps[i].granted == Granting(u, i, order) + {i}
  {
    BegunCalls(s, i);
    var u := Next(s, Begin(i));
    forall j | j in order ensures Calling(u, i, j) {}
    CallsOutcome(u, i, order);
    assert u.camps[i].unsent - AsSet(order) == {};
  }

  lemma ElectionSteps(s: State, i: nat, order: seq<nat>)
    requires i < |s.nodes| == |s.camps| && Below(order, |s.nodes|)
    ensures var u := Next(s, Begin(i));
            Perform(s, Election(s, i, order)) == Next(Perform(u, Calls(u, i, order)), Finish(i))
  {
    var u := Next(s, Begin(i));
    var calls := Calls(u, i, order);
    PerformAppend(s, [Begin(i)] + calls, [Finish(i)]);
    PerformAppend(s, [Begin(i)], calls);
    Perform1(s, [Begin(i)], Begin(i));
    Perform1(Perform(u, calls), [Finish(i)], Finish(i));
  }

  /** What the end of an election does to a candidate that has collected every answer. */
  lemma FinishOutcome(v: State, i: nat)
    requires |v.nodes| == |v.camps| && i < |v.nodes|
    requires v.camps[i].active && v.camps[i].unsent == {} && v.camps[i].awaiting == {}
    ensures var (t, n, won) := (Next(v, Finish(i)), v.nodes[i], 2 * v.nodes[i].oath > v.nodes[i].config);
            && t.nodes[i] == n.(role := if won then Leader else n.role)
            && (forall j :: 0 <= j < |v.nodes| && j != i ==> t.nodes[j] == v.nodes[j])
            && t.won == if won then v.won[(n.term, i) := v.camps[i].granted] else v.won
  {
  }

  ghost predicate Wins(s: State, i: nat)
    requires i < |s.nodes|
  {
    2 * (1 + |Voters(s, i)|) > |s.nodes|
  }

  ghost predicate SomeoneAhead(s: State, i: nat)
    requires i < |s.nodes|
  {
    exists j :: 0 <= j < |s.nodes| && j != i && Ahead(s, i, j)
  }

  lemma CandidateCalled(s: State, v: State, i: nat, order: seq<nat>)
    requires Shape(s) && i < |s.nodes| == |v.nodes| && Enabled(s, Begin(i))
    requires forall j :: j in order <==> j < |s.nodes| && j != i
    requires NodesCalled(Next(s, Begin(i)), v, i, order)
    ensures var n := s.nodes[i];
            v.nodes[i] == n.(term := n.term + 1, oath := 1 + |Voters(s, i)|,
                             role := if SomeoneAhead(s, i) then Follower else Candidate)
  {
    BegunCounts(s, i, order);
  }

  lemma OthersCalled(s: State, v: State, i: nat, order: seq<nat>, j: nat)
    requires Shape(s) && i < |s.nodes| == |v.nodes| && Enabled(s, Begin(i)) && j < |s.nodes| && j != i
    requires forall k :: k in order <==> k < |s.nodes| && k != i
    requires NodesCalled(Next(s, Begin(i)), v, i, order)
    ensures v.nodes[j] == if j in Voters(s, i)
              then s.nodes[j].(term := s.nodes[i].term + 1, leader := Some(i), role := Follower) else s.nodes[j]
  {
    assert Grants(Next(s, Begin(i)), i, j) <==> j in Voters(s, i);
  }

  /** The candidate leads its new term iff, with itself, more than half of the cluster can vote for it;
      otherwise it has fallen back to follower iff some node is ahead of it.  The voters follow it in that term,
      and nobody else has changed. */
  ghost predicate Elected(s: State, t: State, i: nat)
    requires i < |s.nodes| == |t.nodes|
  {
    var n := s.nodes[i];
    && t.nodes[i] == n.(term := n.term + 1, oath := 1 + |Voters(s, i)|,
                        role := if Wins(s, i) then Leader else if SomeoneAhead(s, i) then Follower else Candidate)
    && (forall j :: 0 <= j < |s.nodes| && j != i ==>
          t.nodes[j] == if j in Voters(s, i)
                        then s.nodes[j].(term := n.term + 1, leader := Some(i), role := Follower) else s.nodes[j])
    && t.won == if Wins(s, i) then s.won[(n.term + 1, i) := Voters(s, i) + {i}] else s.won
  }

  lemma ElectedFrom(s: State, v: State, i: nat, order: seq<nat>)
    requires Shape(s) && i < |s.nodes| == |v.nodes| == |v.camps| && Enabled(s, Begin(i))
    requires forall j :: j in order <==> j < |s.nodes| && j != i
    requires NodesCalled(Next(s, Begin(i)), v, i, order) && v.won == s.won
    requires v.camps[i].active && v.camps[i].unsent == {} && v.camps[i].awaiting == {}
    requires v.camps[i].granted == Voters(s, i) + {i}
    ensures Elected(s, Next(v, Finish(i)), i)
  {
    assert ShapeOk(s, i);
    CandidateCalled(s, v, i, order);
    FinishOutcome(v, i);
    var t := Next(v, Finish(i));
    forall j | 0 <= j < |s.nodes| && j != i
      ensures t.nodes[j] == if j in Voters(s, i)
                then s.nodes[j].(term := s.nodes[i].term + 1, leader := Some(i), role := Follower) else s.nodes[j]
    {
      OthersCalled(s, v, i, order, j);
    }
  }

  /** The outcome of an election that nothing interferes with, its calls made in any order. */
  lemma ElectionOutcome(s: State, i: nat, order: seq<nat>)
    requires Shape(s) && i < |s.nodes| && Enabled(s, Begin(i)) && Distinct(order) && Below(order, |s.nodes|)
    requires forall j :: j in order <==> j < |s.nodes| && j != i
    ensures Elected(s, Perform(s, Election(s, i, order)), i)
  {
    var u := Next(s, Begin(i));
    var v := Perform(u, Calls(u, i, order));
    AllCalled(s, i, order);
    BegunCounts(s, i, order);
    ElectionSteps(s, i, order);
    ElectedFrom(s, v, i, order);
  }

  /** So every run can be continued by an election with this outcome. */
  lemma RunElects(n: nat, es: seq<Event>, i: nat, order: seq<nat>)
    requires i < n && Enabled(After(n, es), Begin(i)) && Distinct(order) && Below(order, n)
    requires forall j :: j in order <==> j < n && j != i
    ensures Elected(After(n, es), After(n, es + Election(After(n, es), i, order)), i)
  {
    AlwaysShape(n, es);
    ElectionOutcome(After(n, es), i, order);
    PerformContinues(n, es, Election(After(n, es), i, order));
  }

  // ---------------------------------------------------------------------------
  // Heartbeats and appends
  // ---------------------------------------------------------------------------

  /** The commit that the sender's row offers is the very next one for the receiver, who has an item there. */
  ghost predicate Commits(row: WorkNode, h: NodeData) {
    row.commitIndex == h.commitIndex < row.acceptIndex && Tail(h.items).index > h.commitIndex
  }

  ghost function Beat(s: State, i: nat, w: nat): seq<Event>
    requires i < |s.nodes| && w < |s.nodes[i].others|
  {
    var n := s.nodes[i];
    [SendHeart(i, w), DeliverHeart(HeartReq(i, n.others[w].peer, HeartRequest(i, n.term, Offer(n.others[w]))))]
  }

  lemma HeartSteps(s: State, i: nat, w: nat, m: Msg)
    requires i < |s.nodes| == |s.camps| && w < |s.nodes[i].others| && s.nodes[i].others[w].peer < |s.nodes|
    requires var (n, row) := (s.nodes[i], s.nodes[i].others[w]);
             m == HeartReq(i, row.peer, HeartRequest(i, n.term, Offer(row)))
    ensures Next(Next(s, SendHeart(i, w)), DeliverHeart(m)).nodes == s.nodes[m.to := HandleHeart(s.nodes[m.to], m.heart).0]
  {
  }

  /** What the heartbeat of a sender n, offering what its row says, does to a receiver h: it makes a follower of
      every receiver that is not of a later term, and lets it commit its next item exactly when the sender takes
      it to have accepted but not committed that. */
  ghost function Beaten(n: NodeData, row: WorkNode, h: NodeData): NodeData {
    h.(term := Max(n.term, h.term),
       leader := if n.term >= h.term then Some(n.id) else h.leader,
       role := if n.term >= h.term then Follower else h.role,
       commitIndex := h.commitIndex + if Commits(row, h) then 1 else 0)
  }

  lemma HeartHandled(n: NodeData, row: WorkNode, h: NodeData)
    ensures HandleHeart(h, HeartRequest(n.id, n.term, Offer(row))).0 == Beaten(n, row, h)
  {
  }

  /** A heartbeat that gets through. */
  lemma BeatOutcome(s: State, i: nat, w: nat)
    requires Shape(s) && i < |s.nodes| && w < |s.nodes[i].others|
    ensures var (n, row) := (s.nodes[i], s.nodes[i].others[w]);
            && row.peer < |s.nodes|
            && Perform(s, Beat(s, i, w)).nodes == s.nodes[row.peer := Beaten(n, row, s.nodes[row.peer])]
  {
    var n, row := s.nodes[i], s.nodes[i].others[w];
    assert ShapeOk(s, i);
    var m := HeartReq(i, row.peer, HeartRequest(i, n.term, Offer(row)));
    HeartSteps(s, i, w, m);
    HeartHandled(n, row, s.nodes[row.peer]);
    Perform2(s, Beat(s, i, w), SendHeart(i, w), DeliverHeart(m));
  }

  /** Node i sends its tail to the peer of row w, where it is stored, and takes the answer. */
  ghost function Exchange(s: State, i: nat, w: nat): seq<Event>
    requires i < |s.nodes| && w < |s.nodes[i].others| && s.nodes[i].others[w].peer < |s.nodes| && s.nodes[i].items != []
  {
    var n, row := s.nodes[i], s.nodes[i].others[w];
    var a := AppendOf(n, row, Tail(n.items));
    var r := HandleAppend(s.nodes[row.peer], a, true).1;
    [SendAppend(i, w, |n.items| - 1, false), DeliverAppend(AppendReq(i, row.peer, false, a), true),
     CollectAppend(AppendRep(row.peer, i, false, r.value), w)]
  }

  /** The receiver lacks exactly the sender's last item. */
  ghost predicate LacksTail(s: State, i: nat, j: nat)
    requires i < |s.nodes| && j < |s.nodes| && s.nodes[i].items != []
  {
    s.nodes[j].items == s.nodes[i].items[..|s.nodes[i].items| - 1]
  }

  lemma TailFits(s: State, i: nat, w: nat)
    requires LogInv(s) && i < |s.nodes| && w < |s.nodes[i].others|
    ensures var (n, row) := (s.nodes[i], s.nodes[i].others[w]);
            && n.items != [] && row.peer < |s.nodes| && row.peer != i && Tail(n.items).index == |n.items| - 1
            && (Fits(s.nodes[row.peer].items, AppendOf(n, row, Tail(n.items))) <==> LacksTail(s, i, row.peer))
  {
    var n, row := s.nodes[i], s.nodes[i].others[w];
    assert ShapeOk(s, i) && Chain(s.origin, n.items);
    var send := SendAppend(i, w, |n.items| - 1, false);
    LogStep(s, send);
    FitsIff(Next(s, send), AppendReq(i, row.peer, false, AppendOf(n, row, Tail(n.items))));
  }

  /** The three states of an exchange, one after the other. */
  ghost function AfterSend(s: State, i: nat, w: nat): (t: State)
    requires i < |s.nodes| == |s.camps| && w < |s.nodes[i].others| && s.nodes[i].items != []
    ensures |t.nodes| == |t.camps| == |s.nodes|
  {
    Next(s, SendAppend(i, w, |s.nodes[i].items| - 1, false))
  }

  ghost function AfterDeliver(s: State, i: nat, w: nat): (t: State)
    requires i < |s.nodes| == |s.camps| && w < |s.nodes[i].others| && s.nodes[i].items != []
    ensures |t.nodes| == |t.camps| == |s.nodes|
  {
    var n, row := s.nodes[i], s.nodes[i].others[w];
    Next(AfterSend(s, i, w), DeliverAppend(AppendReq(i, row.peer, false, AppendOf(n, row, Tail(n.items))), true))
  }

  ghost function AfterCollect(s: State, i: nat, w: nat, r: AppendReply): (t: State)
    requires i < |s.nodes| == |s.camps| && w < |s.nodes[i].others| && s.nodes[i].items != []
    ensures |t.nodes| == |t.camps| == |s.nodes|
  {
    Next(AfterDeliver(s, i, w), CollectAppend(AppendRep(s.nodes[i].others[w].peer, i, false, r), w))
  }

  /** What the receiver makes of the sender's last item. */
  ghost function Received(s: State, i: nat, w: nat): (NodeData, Option<AppendReply>)
    requires i < |s.nodes| && w < |s.nodes[i].others| && s.nodes[i].others[w].peer < |s.nodes|
  {
    var n, row := s.nodes[i], s.nodes[i].others[w];
    HandleAppend(s.nodes[row.peer], AppendOf(n, row, Tail(n.items)), true)
  }

  lemma SendStep(s: State, i: nat, w: nat)
    requires i < |s.nodes| == |s.camps| && w < |s.nodes[i].others| && s.nodes[i].items != []
    ensures var (t, n) := (AfterSend(s, i, w), s.nodes[i]);
            t.nodes == s.nodes && AppendReq(i, n.others[w].peer, false, AppendOf(n, n.others[w], Tail(n.items))) in t.net
  {
  }

  lemma DeliverStep(s: State, m: Msg)
    requires |s.nodes| == |s.camps| && m in s.net && m.AppendReq? && m.to < |s.nodes|
    ensures var (t, (n, r)) := (Next(s, DeliverAppend(m, true)), HandleAppend(s.nodes[m.to], m.append, true));
            t.nodes == s.nodes[m.to := n] && t.camps == s.camps && r.Some?
            && AppendRep(m.to, m.from, m.catchUp, r.value) in t.net
  {
  }

  lemma CollectStep(s: State, m: Msg, w: nat)
    requires |s.nodes| == |s.camps| && m in s.net && m.AppendRep? && !m.catchUp && m.to < |s.nodes|
    requires w < |s.nodes[m.to].others| && s.nodes[m.to].others[w].peer == m.from
    ensures Next(s, CollectAppend(m, w)).nodes
         == if m.ack.accept then s.nodes[m.to := CollectAccept(s.nodes[m.to], w, m.ack)] else s.nodes
  {
  }

  /** A receiver that lacks only the sender's last item, k, gets it. */
  lemma StoredAppend(h: NodeData, n: NodeData, row: WorkNode, k: nat)
    requires h.id != n.id && |n.items| == k + 1 && n.items[k].index == k && h.items == n.items[..k]
    requires Fits(h.items, AppendOf(n, row, Tail(n.items)))
    ensures var c := h.commitIndex + if Commits(row, h) then 1 else 0;
            HandleAppend(h, AppendOf(n, row, Tail(n.items)), true) ==
              (h.(items := n.items, term := n.items[k].term, role := Follower, commitIndex := c), Some(AppendReply(true, k, c)))
  {
    assert n.items[..k] + [n.items[k]] == n.items;
  }

  lemma Delivered(s: State, i: nat, w: nat, h: NodeData, r: AppendReply)
    requires i < |s.nodes| == |s.camps| && w < |s.nodes[i].others| && s.nodes[i].items != []
    requires s.nodes[i].others[w].peer < |s.nodes| && Received(s, i, w) == (h, Some(r))
    ensures var (t, j) := (AfterDeliver(s, i, w), s.nodes[i].others[w].peer);
            t.nodes == s.nodes[j := h] && AppendRep(j, i, false, r) in t.net
  {
    var n, row := s.nodes[i], s.nodes[i].others[w];
    SendStep(s, i, w);
    DeliverStep(AfterSend(s, i, w), AppendReq(i, row.peer, false, AppendOf(n, row, Tail(n.items))));
  }

  lemma Answered(s: State, i: nat, w: nat, h: NodeData, r: AppendReply)
    requires i < |s.nodes| == |s.camps| && w < |s.nodes[i].others| && s.nodes[i].items != []
    requires s.nodes[i].others[w].peer < |s.nodes| && s.nodes[i].others[w].peer != i && Received(s, i, w) == (h, Some(r))
    ensures var j := s.nodes[i].others[w].peer;
            AfterCollect(s, i, w, r).nodes ==
              if r.accept then s.nodes[j := h][i := CollectAccept(s.nodes[i], w, r)] else s.nodes[j := h]
  {
    Delivered(s, i, w, h, r);
    CollectStep(AfterDeliver(s, i, w), AppendRep(s.nodes[i].others[w].peer, i, false, r), w);
  }

  lemma ExchangeEvents(s: State, i: nat, w: nat, r: AppendReply)
    requires i < |s.nodes| && w < |s.nodes[i].others| && s.nodes[i].items != []
    requires s.nodes[i].others[w].peer < |s.nodes| && Received(s, i, w).1 == Some(r)
    ensures var (n, row) := (s.nodes[i], s.nodes[i].others[w]);
            Exchange(s, i, w) == [SendAppend(i, w, |n.items| - 1, false),
                                  DeliverAppend(AppendReq(i, row.peer, false, AppendOf(n, row, Tail(n.items))), true),
                                  CollectAppend(AppendRep(row.peer, i, false, r), w)]
  {
  }

  lemma ExchangeLink(s: State, i: nat, w: nat, r: AppendReply)
    requires i < |s.nodes| == |s.camps| && w < |s.nodes[i].others| && s.nodes[i].items != []
    requires s.nodes[i].others[w].peer < |s.nodes| && Received(s, i, w).1 == Some(r)
    ensures Perform(s, Exchange(s, i, w)) == AfterCollect(s, i, w, r)
  {
    var n, row := s.nodes[i], s.nodes[i].others[w];
    ExchangeEvents(s, i, w, r);
    Perform3(s, Exchange(s, i, w), SendAppend(i, w, |n.items| - 1, false),
             DeliverAppend(AppendReq(i, row.peer, false, AppendOf(n, row, Tail(n.items))), true),
             CollectAppend(AppendRep(row.peer, i, false, r), w));
  }

  /** The outcome of the exchange: a receiver that lacks exactly the sender's last item has got it, and its
      term, and committed if offered the next commit, and the sender has taken in what the receiver then has
      (`NodeModel.CollectExact`).  Any other receiver has refused, and no node has changed. */
  ghost predicate Exchanged(s: State, t: State, i: nat, w: nat) {
    && i < |s.nodes| && w < |s.nodes[i].others|
    && var (n, row) := (s.nodes[i], s.nodes[i].others[w]);
       && n.items != [] && row.peer < |s.nodes| && row.peer != i
       && var (h, k) := (s.nodes[row.peer], |n.items| - 1);
          var c := h.commitIndex + if Commits(row, h) then 1 else 0;
          t.nodes ==
            if LacksTail(s, i, row.peer)
            then s.nodes[row.peer := h.(items := n.items, term := n.items[k].term, role := Follower, commitIndex := c)]
                        [i := CollectAccept(n, w, AppendReply(true, k, c))]
            else s.nodes
  }

  lemma ExchangedFrom(s: State, t: State, i: nat, w: nat, h: NodeData, r: AppendReply)
    requires LogInv(s) && i < |s.nodes| && w < |s.nodes[i].others|
    requires s.nodes[i].others[w].peer < |s.nodes| && Received(s, i, w) == (h, Some(r))
    requires var j := s.nodes[i].others[w].peer;
             t.nodes == if r.accept then s.nodes[j := h][i := CollectAccept(s.nodes[i], w, r)] else s.nodes[j := h]
    ensures Exchanged(s, t, i, w)
  {
    var n, row := s.nodes[i], s.nodes[i].others[w];
    TailFits(s, i, w);
    assert ShapeOk(s, i) && ShapeOk(s, row.peer);
    if LacksTail(s, i, row.peer) {
      StoredAppend(s.nodes[row.peer], n, row, |n.items| - 1);
    } else {
      assert h == s.nodes[row.peer] && !r.accept;
    }
  }

  /** An append of the sender's last item that gets through. */
  lemma ExchangeOutcome(s: State, i: nat, w: nat)
    requires LogInv(s) && i < |s.nodes| && w < |s.nodes[i].others|
    ensures s.nodes[i].items != [] && s.nodes[i].others[w].peer < |s.nodes|
    ensures Exchanged(s, Perform(s, Exchange(s, i, w)), i, w)
  {
    TailFits(s, i, w);
    var (h, r) := Received(s, i, w);
    Answered(s, i, w, h, r.value);
    ExchangeLink(s, i, w, r.value);
    ExchangedFrom(s, AfterCollect(s, i, w, r.value), i, w, h, r.value);
  }

  // ---------------------------------------------------------------------------
  // A round of appends
  // ---------------------------------------------------------------------------

  lemma {:induction false} PerformAccept(s: State, es: seq<Event>)
    requires AcceptInv(s) && forall k :: 0 <= k < |es| ==> !es[k].Originate?
    ensures AcceptInv(Perform(s, es))
    decreases |es|
  {
    if es != [] {
      AcceptStep(s, es[0]);
      PerformAccept(Next(s, es[0]), es[1..]);
    }
  }

  /** Node i sends its tail to the peers of these rows, one after the other. */
  ghost function Appends(s: State, i: nat, rows: seq<nat>): seq<Event>
    requires AcceptInv(s) && i < |s.nodes| && Below(rows, |s.nodes[i].others|)
    decreases |rows|
  {
    if rows == [] then []
    else
      ExchangeOutcome(s, i, rows[0]);
      PerformAccept(s, Exchange(s, i, rows[0]));
      Exchange(s, i, rows[0]) + Appends(Perform(s, Exchange(s, i, rows[0])), i, rows[1..])
  }

  /** No row is recorded beyond a list's end. */
  lemma RowsWithin(s: State, i: nat, w: nat)
    requires AcceptInv(s) && i < |s.nodes| && w < |s.nodes[i].others|
    ensures var row := s.nodes[i].others[w];
            && row.peer < |s.nodes| && row.acceptIndex < |s.nodes[i].items| && row.acceptIndex < |s.nodes[row.peer].items|
  {
    assert WorkOk(s, i);
    assert Shares(s, i, s.nodes[i].others[w].peer, s.nodes[i].others[w].acceptIndex);
  }

  /** All the peers of these rows lack exactly node i's last item. */
  ghost predicate AllLackTail(s: State, i: nat, rows: seq<nat>)
    requires i < |s.nodes| && s.nodes[i].items != []
  {
    forall a :: 0 <= a < |rows| ==>
      && rows[a] < |s.nodes[i].others| && s.nodes[i].others[rows[a]].peer < |s.nodes|
      && LacksTail(s, i, s.nodes[i].others[rows[a]].peer)
  }

  /** One more row at k, where no row was beyond k. */
  lemma RowCounted(n: NodeData, w: nat, k: nat, c: nat)
    requires w < |n.others| && n.others[w].acceptIndex < k && k - 1 <= n.acceptIndex <= k
    requires forall v :: 0 <= v < |n.others| ==> n.others[v].acceptIndex <= k
    ensures var m := CollectAccept(n, w, AppendReply(true, k, c));
            && |AcceptedBeyond(m.others, k - 1)| == |AcceptedBeyond(n.others, k - 1)| + 1
            && m.acceptIndex == if n.acceptIndex == k || 2 * |AcceptedBeyond(m.others, k - 1)| > |n.others| + 1 then k else k - 1
  {
    CollectExact(n, w, AppendReply(true, k, c));
    var others := n.others[w := WorkNode(n.others[w].peer, k, c)];
    assert AcceptedBeyond(others, k - 1) == AcceptedBeyond(n.others, k - 1) + {w};
    assert AcceptedBeyond(others, k) == {};
  }

  lemma OneMoreRow(s: State, t: State, i: nat, w: nat, k: nat)
    requires AcceptInv(s) && Exchanged(s, t, i, w) && LacksTail(s, i, s.nodes[i].others[w].peer)
    requires |s.nodes[i].items| == k + 1 && k > 0 && k - 1 <= s.nodes[i].acceptIndex <= k
    ensures |t.nodes| == |s.nodes| && t.nodes[i].items == s.nodes[i].items
    ensures |AcceptedBeyond(t.nodes[i].others, k - 1)| == |AcceptedBeyond(s.nodes[i].others, k - 1)| + 1
    ensures t.nodes[i].acceptIndex == if s.nodes[i].acceptIndex == k || 2 * |AcceptedBeyond(t.nodes[i].others, k - 1)| > |s.nodes|
                                      then k else k - 1
  {
    var others := s.nodes[i].others;
    var h := s.nodes[others[w].peer];
    var c := h.commitIndex + if Commits(others[w], h) then 1 else 0;
    assert ShapeOk(s, i);
    forall v | 0 <= v < |others| ensures others[v].acceptIndex <= k { RowsWithin(s, i, v); }
    RowsWithin(s, i, w);
    RowCounted(s.nodes[i], w, k, c);
    CollectExact(s.nodes[i], w, AppendReply(true, k, c));
  }

  lemma StillLack(s: State, t: State, i: nat, rows: seq<nat>)
    requires Shape(s) && rows != [] && Distinct(rows) && Exchanged(s, t, i, rows[0]) && AllLackTail(s, i, rows)
    ensures |t.nodes| == |s.nodes| && t.nodes[i].items == s.nodes[i].items && |t.nodes[i].others| == |s.nodes[i].others|
    ensures AllLackTail(t, i, rows[1..])
  {
    var others := s.nodes[i].others;
    assert ShapeOk(s, i);
    assert LacksTail(s, i, others[rows[0]].peer);
    var h := s.nodes[others[rows[0]].peer];
    CollectExact(s.nodes[i], rows[0],
                 AppendReply(true, |s.nodes[i].items| - 1, h.commitIndex + if Commits(others[rows[0]], h) then 1 else 0));
    forall a | 0 <= a < |rows[1..]|
      ensures var w := rows[1..][a];
              w < |others| && t.nodes[i].others[w] == others[w] && others[w].peer < |t.nodes| && LacksTail(t, i, others[w].peer)
    {
      assert rows[1..][a] == rows[a + 1] && LacksTail(s, i, others[rows[a + 1]].peer);
    }
  }

  /** A round of appends: the node's last item, its k-th, becomes accepted exactly when the peers that have
      acknowledged it, the node itself not counted, are more than half of the cluster. */
  lemma {:induction false} AppendsOutcome(s: State, i: nat, rows: seq<nat>, k: nat)
    requires AcceptInv(s) && i < |s.nodes| && Distinct(rows) && Below(rows, |s.nodes[i].others|)
    requires |s.nodes[i].items| == k + 1 && k > 0 && k - 1 <= s.nodes[i].acceptIndex <= k && AllLackTail(s, i, rows)
    ensures var t := Perform(s, Appends(s, i, rows));
            && AcceptInv(t) && t.nodes[i].items == s.nodes[i].items
            && |AcceptedBeyond(t.nodes[i].others, k - 1)| == |AcceptedBeyond(s.nodes[i].others, k - 1)| + |rows|
            && (t.nodes[i].acceptIndex == k
                <==> s.nodes[i].acceptIndex == k || (rows != [] && 2 * |AcceptedBeyond(t.nodes[i].others, k - 1)| > |s.nodes|))
            && k - 1 <= t.nodes[i].acceptIndex <= k
    decreases |rows|
  {
    if rows != [] {
      var w, rest := rows[0], rows[1..];
      ExchangeOutcome(s, i, w);
      var u := Perform(s, Exchange(s, i, w));
      PerformAccept(s, Exchange(s, i, w));
      assert LacksTail(s, i, s.nodes[i].others[rows[0]].peer);
      OneMoreRow(s, u, i, w, k);
      StillLack(s, u, i, rows);
      AppendsOutcome(u, i, rest, k);
      PerformAppend(s, Exchange(s, i, w), Appends(u, i, rest));
    }
  }
}
