/**
 Runs that show what the protocol does not guarantee: without each of the two rules a term can
 have two winners, and commits that no majority backs can disagree.
 */
module Failures {
  import opened Basics
  import opened NodeModel
  import opened Cluster
  import opened Replication

  // ---------------------------------------------------------------------------
  // Reachable states
  // ---------------------------------------------------------------------------

  /** Which of the two rules a run has to keep. */
  datatype Rules = Rules(keep: bool, recheck: bool)

  /** Client values enter at leaders only, and the chosen rules hold. */
  ghost predicate Allowed(s: State, e: Event, rules: Rules)
    requires |s.nodes| == |s.camps|
  {
    LeaderOriginates(s, e) && (rules.keep ==> KeepsTerm(s, e)) && (rules.recheck ==> Rechecks(s, e))
  }

  ghost predicate Lawful(n: nat, es: seq<Event>, rules: Rules) {
    LeaderFed(n, es) && (rules.keep ==> TermKeeping(n, es)) && (rules.recheck ==> Rechecking(n, es))
  }

  /** R is a set of states of n nodes that allowed events do not leave. */
  ghost predicate Closed(R: iset<State>, n: nat, rules: Rules) {
    && (forall s :: s in R ==> |s.nodes| == |s.camps| == n)
    && (forall s, e :: s in R && |s.nodes| == |s.camps| && Allowed(s, e, rules) ==> Next(s, e) in R)
  }

  ghost function Reached(n: nat, rules: Rules): iset<State> {
    iset es: seq<Event> | Lawful(n, es, rules) :: After(n, es)
  }

  lemma OneMore(n: nat, es: seq<Event>, e: Event, rules: Rules)
    requires Lawful(n, es, rules) && Allowed(After(n, es), e, rules)
    ensures Lawful(n, es + [e], rules) && After(n, es + [e]) == Next(After(n, es), e)
  {
    assert (es + [e])[..|es + [e]| - 1] == es;
  }

  lemma ReachedClosed(n: nat, rules: Rules)
    ensures Closed(Reached(n, rules), n, rules) && Init(n) in Reached(n, rules)
  {
    assert Lawful(n, [], rules) && After(n, []) == Init(n);
    forall s, e | s in Reached(n, rules) && |s.nodes| == |s.camps| && Allowed(s, e, rules)
      ensures Next(s, e) in Reached(n, rules)
    {
      var es :| Lawful(n, es, rules) && After(n, es) == s;
      OneMore(n, es, e, rules);
    }
  }

  // ---------------------------------------------------------------------------
  // Pieces of runs
  // ---------------------------------------------------------------------------

  /** Node i times out and begins a campaign. */
  lemma Start(R: iset<State>, n: nat, rules: Rules, s: State, i: nat) returns (t: State)
    requires Closed(R, n, rules) && s in R && i < n && !s.camps[i].active
    ensures t in R
    ensures && t.nodes == s.nodes[i := s.nodes[i].(role := Candidate, oath := 1, term := s.nodes[i].term + 1)]
            && t.camps == s.camps[i := Campaign(s.camps[i].round + 1, s.nodes[i].term + 1, true,
                                                set w | w in s.nodes[i].others :: w.peer, {}, {i})]
            && t.won == s.won
  {
    t := Next(s, Timeout(i));
    t := Next(t, Begin(i));
  }

  /** Candidate i asks v, which accepts, and counts the accept. */
  lemma Vote(R: iset<State>, n: nat, rules: Rules, s: State, i: nat, v: nat) returns (t: State)
    requires Closed(R, n, rules) && s in R && i < n && v < n && i != v && v in s.camps[i].unsent
    requires s.nodes[v].term < s.nodes[i].term && Tail(s.nodes[v].items).index <= s.nodes[i].acceptIndex
    ensures t in R
    ensures var c := s.camps[i];
            && t.nodes == s.nodes[i := s.nodes[i].(oath := s.nodes[i].oath + 1)]
                                 [v := s.nodes[v].(term := s.nodes[i].term, leader := Some(i), role := Follower)]
            && t.camps == s.camps[i := c.(unsent := c.unsent - {v}, awaiting := c.awaiting - {v},
                                          granted := c.granted + {v})]
            && t.won == s.won
  {
    var c := s.camps[i];
    t := Next(s, SendElect(i, v));
    var q := ElectReq(i, v, c.round, ElectionRequest(i, s.nodes[i].term, s.nodes[i].acceptIndex));
    t := Next(t, DeliverElect(q));
    var r := ElectRep(v, i, q.round, HandleElection(s.nodes[v], q.election).1);
    t := Next(t, CollectElect(r));
    assert c.awaiting + {v} - {v} == c.awaiting - {v};
  }

  /** Candidate i's calls to its remaining peers fail, and it becomes leader. */
  lemma {:induction false} Win(R: iset<State>, n: nat, rules: Rules, s: State, i: nat) returns (t: State)
    requires Closed(R, n, rules) && s in R && i < n
    requires var (m, c) := (s.nodes[i], s.camps[i]);
             c.active && c.awaiting == {} && HasMajority(m) && (rules.recheck ==> m.term == c.term)
    ensures t in R
    ensures && t.nodes == s.nodes[i := s.nodes[i].(role := Leader)]
            && t.camps == s.camps[i := s.camps[i].(unsent := {}, active := false)]
            && t.won == s.won[(s.nodes[i].term, i) := s.camps[i].granted]
    decreases |s.camps[i].unsent|
  {
    var c := s.camps[i];
    if c.unsent == {} {
      t := Next(s, Finish(i));
    } else {
      var j :| j in c.unsent;
      t := Next(s, FailElect(i, j));
      assert t.camps[i] == c.(unsent := c.unsent - {j});
      t := Win(R, n, rules, t, i);
    }
  }

  /** Node i, whose tail is its second item, can send it to the peer at position w of its table. */
  ghost predicate CanExtend(s: State, rules: Rules, i: nat, w: nat)
    requires i < |s.nodes|
  {
    var m := s.nodes[i];
    && m.id == i && w < |m.others| && m.others[w].peer < |s.nodes| && m.others[w].peer != i
    && m.others[w].acceptIndex == 0
    && |m.items| == 2 && m.items[0] == INIT_ITEM && m.items[1].index == 1
    && s.nodes[m.others[w].peer].items == [INIT_ITEM] && s.nodes[m.others[w].peer].id == m.others[w].peer
    && (rules.keep ==> s.nodes[m.others[w].peer].term <= m.items[1].term)
  }

  /** It does, and the peer's list is extended. */
  lemma Extend(R: iset<State>, n: nat, rules: Rules, s: State, i: nat, w: nat) returns (t: State)
    requires Closed(R, n, rules) && s in R && i < n && CanExtend(s, rules, i, w)
    ensures t in R
    ensures var m := s.nodes[i];
            var v := m.others[w].peer;
            && t.nodes == s.nodes[v := s.nodes[v].(items := m.items, term := m.items[1].term, role := Follower)]
            && t.camps == s.camps && t.won == s.won
            && AppendRep(v, i, false, AppendReply(true, 1, s.nodes[v].commitIndex)) in t.net
  {
    var m := s.nodes[i];
    t := Next(s, SendAppend(i, w, 1, false));
    var q := AppendReq(i, m.others[w].peer, false, AppendRequest(i, m.items[1], 0, 0, 0));
    assert AppendOf(m, m.others[w], m.items[1]) == q.append by { PositionInChain(m.items, 1, 0); }
    t := Next(t, DeliverAppend(q, true));
    assert [INIT_ITEM] + [m.items[1]] == m.items;
  }

  /** And it collects the accept. */
  lemma Replicate(R: iset<State>, n: nat, rules: Rules, s: State, i: nat, w: nat) returns (t: State)
    requires Closed(R, n, rules) && s in R && i < n && CanExtend(s, rules, i, w)
    ensures t in R
    ensures var m := s.nodes[i];
            var v := m.others[w].peer;
            && t.nodes == s.nodes[i := CollectAccept(m, w, AppendReply(true, 1, s.nodes[v].commitIndex))]
                                 [v := s.nodes[v].(items := m.items, term := m.items[1].term, role := Follower)]
            && t.camps == s.camps && t.won == s.won
  {
    var v := s.nodes[i].others[w].peer;
    t := Extend(R, n, rules, s, i, w);
    t := Next(t, CollectAppend(AppendRep(v, i, false, AppendReply(true, 1, s.nodes[v].commitIndex)), w));
  }

  /** Node i sends a heartbeat to the peer at position w of its table. */
  lemma Beat(R: iset<State>, n: nat, rules: Rules, s: State, i: nat, w: nat) returns (t: State)
    requires Closed(R, n, rules) && s in R && i < n && w < |s.nodes[i].others| && s.nodes[i].others[w].peer < n
    ensures t in R
    ensures var (m, x) := (s.nodes[i], s.nodes[i].others[w]);
            t == s.(nodes := s.nodes[x.peer := HandleHeart(s.nodes[x.peer], HeartRequest(i, m.term, Offer(x))).0],
                    net := t.net)
  {
    var m, x := s.nodes[i], s.nodes[i].others[w];
    t := Next(s, SendHeart(i, w));
    t := Next(t, DeliverHeart(HeartReq(i, x.peer, HeartRequest(i, m.term, Offer(x)))));
  }

  /** The leader i takes a client's value. */
  lemma Feed(R: iset<State>, n: nat, rules: Rules, s: State, i: nat, value: string) returns (t: State)
    requires Closed(R, n, rules) && s in R && i < n && s.nodes[i].role == Leader
    requires var m := s.nodes[i]; m.id == i && m.items == [INIT_ITEM] && m.commitIndex == 0
    ensures t in R
    ensures && t.nodes == s.nodes[i := s.nodes[i].(items := [INIT_ITEM, Item(1, s.nodes[i].term, value)])]
            && t.camps == s.camps && t.won == s.won
  {
    var m := s.nodes[i];
    t := Next(s, Originate(i, m.term, value, true));
    assert m.items + [Item(1, m.term, value)] == [INIT_ITEM, Item(1, m.term, value)];
  }

  // ---------------------------------------------------------------------------
  // Three nodes: two winners of one term
  // ---------------------------------------------------------------------------

  // Here n names the constant 3, and below 5 (as `5 <= n < 6`): with a literal the verifier would unfold
  // `OthersUpTo` at every mention of a peer table.

  function Fresh3(i: nat, p: nat, q: nat): NodeData {
    NodeData(i, 0, None, Follower, 0, 3, [WorkNode(p, 0, 0), WorkNode(q, 0, 0)], [INIT_ITEM], 0, 0)
  }

  lemma OthersOfThree(n: nat)
    requires n == 3
    ensures OthersUpTo(0, n) == [WorkNode(1, 0, 0), WorkNode(2, 0, 0)]
    ensures OthersUpTo(1, n) == [WorkNode(0, 0, 0), WorkNode(2, 0, 0)]
    ensures OthersUpTo(2, n) == [WorkNode(0, 0, 0), WorkNode(1, 0, 0)]
  {
    assert OthersUpTo(0, 1) == [] && OthersUpTo(0, 2) == [WorkNode(1, 0, 0)];
    assert OthersUpTo(1, 1) == [WorkNode(0, 0, 0)] && OthersUpTo(1, 2) == [WorkNode(0, 0, 0)];
    assert OthersUpTo(2, 1) == [WorkNode(0, 0, 0)] && OthersUpTo(2, 2) == [WorkNode(0, 0, 0), WorkNode(1, 0, 0)];
  }

  lemma InitOfThree(n: nat)
    requires n == 3
    ensures Init(n).nodes == [Fresh3(0, 1, 2), Fresh3(1, 0, 2), Fresh3(2, 0, 1)]
  {
    OthersOfThree(n);
    var nodes := Init(n).nodes;
    assert nodes[0] == Fresh3(0, 1, 2) && nodes[1] == Fresh3(1, 0, 2) && nodes[2] == Fresh3(2, 0, 1);
  }

  /** The candidate i of a three-node cluster wins with v's vote. */
  lemma Elect3(R: iset<State>, rules: Rules, s: State, i: nat, v: nat) returns (t: State)
    requires Closed(R, 3, rules) && s in R && i < 3 && v < 3 && i != v
    requires && !s.camps[i].active && s.nodes[i].config == 3
             && |s.nodes[i].others| == 2 && v in {s.nodes[i].others[0].peer, s.nodes[i].others[1].peer}
             && s.nodes[v].term <= s.nodes[i].term && Tail(s.nodes[v].items).index <= s.nodes[i].acceptIndex
    ensures t in R
    ensures var term := s.nodes[i].term + 1;
            && t.nodes == s.nodes[i := s.nodes[i].(role := Leader, oath := 2, term := term)]
                                 [v := s.nodes[v].(term := term, leader := Some(i), role := Follower)]
            && t.camps == s.camps[i := t.camps[i]] && !t.camps[i].active
            && t.won == s.won[(term, i) := {i, v}]
  {
    t := Start(R, 3, rules, s, i);
    assert s.nodes[i].others[0] in s.nodes[i].others && s.nodes[i].others[1] in s.nodes[i].others;
    t := Vote(R, 3, rules, t, i, v);
    assert t.camps[i].granted == {i, v};
    t := Win(R, 3, rules, t, i);
  }

  /** Node 2 leads term 1 and holds an item of that term; node 0 then wins term 2 with node 1's vote. */
  lemma Prelude(R: iset<State>, rules: Rules) returns (s: State)
    requires Closed(R, 3, rules) && Init(3) in R
    ensures s in R
    ensures && (forall i :: 0 <= i < 3 ==> !s.camps[i].active)
            && s.nodes == [Fresh3(0, 1, 2).(term := 2, leader := Some(2), role := Leader, oath := 2),
                           Fresh3(1, 0, 2).(term := 2, leader := Some(0)),
                           Fresh3(2, 0, 1).(term := 1, role := Leader, oath := 2,
                                            items := [INIT_ITEM, Item(1, 1, "x")])]
            && (2, 0) in s.won
  {
    InitOfThree(3);
    s := Elect3(R, rules, Init(3), 2, 1);
    s := Feed(R, 3, rules, s, 2, "x");
    s := Beat(R, 3, rules, s, 2, 0);
    s := Elect3(R, rules, s, 0, 1);
  }

  lemma CountTwo(x: nat, y: nat)
    ensures CountAbove([x, y], 0) == (if x > 0 then 1 else 0) + if y > 0 then 1 else 0
  {
    assert [x, y][1..] == [y];
    assert CountAbove([y], 0) == if y > 0 then 1 else 0;
  }

  /** The first accept of two is no majority of three; the second is. */
  lemma TwoAccepts(m: NodeData, p: nat, q: nat)
    requires m.others == [WorkNode(p, 0, 0), WorkNode(q, 0, 0)] && m.acceptIndex == 0 && m.commitIndex == 0
    ensures var a := CollectAccept(m, 0, AppendReply(true, 1, 0));
            && a == m.(others := [WorkNode(p, 1, 0), WorkNode(q, 0, 0)])
            && CollectAccept(a, 1, AppendReply(true, 1, 0))
               == m.(others := [WorkNode(p, 1, 0), WorkNode(q, 1, 0)], acceptIndex := 1)
  {
    var one := [WorkNode(p, 1, 0), WorkNode(q, 0, 0)];
    var two := [WorkNode(p, 1, 0), WorkNode(q, 1, 0)];
    assert RecordedAccepts(one) == [1, 0] && RecordedAccepts(two) == [1, 1];
    assert RecordedCommits(one) == RecordedCommits(two) == [0, 0];
    CountTwo(1, 0);
    CountTwo(1, 1);
    CountTwo(0, 0);
    assert m.others[0 := one[0]] == one && one[1 := two[1]] == two;
  }

  lemma BackwardAppend(R: iset<State>, rules: Rules) returns (s: State)
    requires Closed(R, 3, rules) && Init(3) in R && !rules.keep
    ensures s in R && (2, 0) in s.won && (2, 2) in s.won
  {
    s := Prelude(R, rules);
    TwoAccepts(s.nodes[2], 0, 1);
    s := Replicate(R, 3, rules, s, 2, 0);
    s := Replicate(R, 3, rules, s, 2, 1);
    s := Elect3(R, rules, s, 2, 1);
  }

  /** Two winners of term 2 although every winner was still in its campaign's term:
      an Append took a voter back to term 1, and it voted in term 2 again. */
  lemma TwoWinnersAfterAppend() returns (es: seq<Event>)
    ensures LeaderFed(3, es) && Rechecking(3, es)
    ensures (2, 0) in After(3, es).won && (2, 2) in After(3, es).won
  {
    var rules := Rules(false, true);
    ReachedClosed(3, rules);
    var s := BackwardAppend(Reached(3, rules), rules);
    es :| Lawful(3, es, rules) && After(3, es) == s;
  }

  lemma StaleCampaign(R: iset<State>, rules: Rules) returns (s: State)
    requires Closed(R, 3, rules) && Init(3) in R && !rules.recheck
    ensures s in R && (2, 0) in s.won && (2, 2) in s.won
  {
    InitOfThree(3);
    s := Start(R, 3, rules, Init(3), 0);
    assert s.camps[0].unsent == {1, 2};
    s := Elect3(R, rules, s, 2, 1);
    s := Elect3(R, rules, s, 2, 0);
    s := Vote(R, 3, rules, s, 0, 1);
    s := Win(R, 3, rules, s, 0);
  }

  /** Two winners of term 2 although no Append took any node back: node 0 campaigned for term 1, was moved
      to term 2 by its own vote for node 2, and went on asking and winning in term 2. */
  lemma TwoWinnersWithoutRecheck() returns (es: seq<Event>)
    ensures LeaderFed(3, es) && TermKeeping(3, es)
    ensures (2, 0) in After(3, es).won && (2, 2) in After(3, es).won
  {
    var rules := Rules(true, false);
    ReachedClosed(3, rules);
    var s := StaleCampaign(Reached(3, rules), rules);
    es :| Lawful(3, es, rules) && After(3, es) == s;
  }

  // ---------------------------------------------------------------------------
  // Five nodes: commits that disagree
  // ---------------------------------------------------------------------------

  lemma {:induction false} OthersCover(i: nat, n: nat, p: nat)
    requires p < n && p != i
    ensures WorkNode(p, 0, 0) in OthersUpTo(i, n)
  {
    if p < n - 1 {
      OthersCover(i, n - 1, p);
    }
  }

  lemma OthersOfFive(n: nat)
    requires n == 5
    ensures |OthersUpTo(0, n)| == |OthersUpTo(2, n)| == 4
    ensures OthersUpTo(0, n)[0].peer == 1 && OthersUpTo(2, n)[2].peer == 3
  {
    OthersShape(0, n);
    OthersShape(2, n);
    assert OthersUpTo(0, n) == OthersUpTo(0, 4) + [WorkNode(4, 0, 0)];
    assert OthersUpTo(2, n) == OthersUpTo(2, 4) + [WorkNode(4, 0, 0)];
    assert OthersUpTo(0, 1) == [] && OthersUpTo(0, 2) == [WorkNode(1, 0, 0)];
    assert OthersUpTo(0, 3) == [WorkNode(1, 0, 0), WorkNode(2, 0, 0)];
    assert OthersUpTo(2, 2) == [WorkNode(0, 0, 0), WorkNode(1, 0, 0)] == OthersUpTo(2, 3);
    assert OthersUpTo(2, 4) == [WorkNode(0, 0, 0), WorkNode(1, 0, 0), WorkNode(3, 0, 0)];
  }

  /** Where three are a majority, the candidate i wins with the votes of u and v. */
  lemma ElectByThree(R: iset<State>, n: nat, rules: Rules, s: State, i: nat, u: nat, v: nat) returns (t: State)
    requires n < 6 && Closed(R, n, rules) && s in R && i < n && u < n && v < n && i != u && i != v && u != v
    requires && !s.camps[i].active && WorkNode(u, 0, 0) in s.nodes[i].others && WorkNode(v, 0, 0) in s.nodes[i].others
             && s.nodes[i].config == n
             && s.nodes[u].term <= s.nodes[i].term && s.nodes[u].items == [INIT_ITEM]
             && s.nodes[v].term <= s.nodes[i].term && s.nodes[v].items == [INIT_ITEM]
    ensures t in R
    ensures var term := s.nodes[i].term + 1;
            && t.nodes == s.nodes[i := s.nodes[i].(role := Leader, oath := 3, term := term)]
                                 [u := s.nodes[u].(term := term, leader := Some(i), role := Follower)]
                                 [v := s.nodes[v].(term := term, leader := Some(i), role := Follower)]
            && t.camps == s.camps[i := t.camps[i]] && !t.camps[i].active
  {
    t := Start(R, n, rules, s, i);
    t := Vote(R, n, rules, t, i, u);
    t := Vote(R, n, rules, t, i, v);
    t := Win(R, n, rules, t, i);
  }

  /** The leader i feeds a value, replicates it to the peer at position w alone, and lets it commit. */
  lemma CommitAtOne(R: iset<State>, n: nat, rules: Rules, s: State, i: nat, w: nat, value: string) returns (t: State)
    requires Closed(R, n, rules) && s in R && i < n && w < |s.nodes[i].others|
    requires var m := s.nodes[i];
             && m.role == Leader && m.id == i && m.items == [INIT_ITEM] && m.commitIndex == 0 && m.acceptIndex == 0
             && m.others == OthersUpTo(i, n)
             && m.others[w].peer < n && m.others[w].peer != i
             && var v := s.nodes[m.others[w].peer];
                v.id == m.others[w].peer && v.items == [INIT_ITEM] && v.commitIndex == 0 && v.term <= m.term
    ensures t in R
    ensures var v := s.nodes[i].others[w].peer;
            && (forall j :: 0 <= j < n && j != i && j != v ==> t.nodes[j] == s.nodes[j])
            && t.nodes[v].commitIndex == 1
            && t.nodes[v].items == [INIT_ITEM, Item(1, s.nodes[i].term, value)]
            && t.camps == s.camps
  {
    OthersShape(i, n);
    t := Feed(R, n, rules, s, i, value);
    t := Replicate(R, n, rules, t, i, w);
    t := Beat(R, n, rules, t, i, w);
  }

  /** Every node of z is as it was created, and none campaigns. */
  ghost predicate AllNew(z: State, n: nat) {
    |z.nodes| == |z.camps| == n && forall i :: 0 <= i < n ==> z.nodes[i] == Created(n, i) && !z.camps[i].active
  }

  lemma FirstElection(R: iset<State>, n: nat, rules: Rules, z: State) returns (s: State)
    requires 5 <= n < 6 && Closed(R, n, rules) && z in R && AllNew(z, n)
    ensures s in R
    ensures && (forall i :: 1 <= i < n ==> !s.camps[i].active)
            && s.nodes[0] == Created(n, 0).(role := Leader, oath := 3, term := 1)
            && s.nodes[1] == Created(n, 1).(term := 1, leader := Some(0))
            && s.nodes[2] == Created(n, 2).(term := 1, leader := Some(0))
            && s.nodes[3] == Created(n, 3) && s.nodes[4] == Created(n, 4)
  {
    OthersCover(0, n, 1);
    OthersCover(0, n, 2);
    s := ElectByThree(R, n, rules, z, 0, 1, 2);
  }

  lemma FirstCommit(R: iset<State>, n: nat, rules: Rules) returns (s: State)
    requires 5 <= n < 6 && Closed(R, n, rules) && Init(n) in R
    ensures s in R
    ensures && (forall i :: 1 <= i < n ==> !s.camps[i].active)
            && s.nodes[1].commitIndex == 1 && s.nodes[1].items == [INIT_ITEM, Item(1, 1, "a")]
            && s.nodes[2] == Created(n, 2).(term := 1, leader := Some(0))
            && s.nodes[3] == Created(n, 3) && s.nodes[4] == Created(n, 4)
  {
    OthersOfFive(n);
    assert AllNew(Init(n), n);
    s := FirstElection(R, n, rules, Init(n));
    s := CommitAtOne(R, n, rules, s, 0, 0, "a");
  }

  lemma SecondCommit(R: iset<State>, n: nat, rules: Rules) returns (s: State)
    requires 5 <= n < 6 && Closed(R, n, rules) && Init(n) in R
    ensures s in R
    ensures && s.nodes[1].commitIndex == s.nodes[3].commitIndex == 1
            && |s.nodes[1].items| == |s.nodes[3].items| == 2
            && s.nodes[1].items[1] != s.nodes[3].items[1]
  {
    OthersCover(2, n, 3);
    OthersCover(2, n, 4);
    OthersOfFive(n);
    s := FirstCommit(R, n, rules);
    s := ElectByThree(R, n, rules, s, 2, 3, 4);
    s := CommitAtOne(R, n, rules, s, 2, 2, "b");
  }

  /** A run of five nodes that keeps every rule about terms, winners and client values, and in which two
      nodes commit different items at index 1: a follower commits on the leader's offer, which the leader
      makes without looking at its accept index. */
  lemma CommitsDisagree() returns (es: seq<Event>)
    ensures LeaderFed(5, es) && TermKeeping(5, es) && Rechecking(5, es)
    ensures var s := After(5, es);
            && s.nodes[1].commitIndex == s.nodes[3].commitIndex == 1
            && |s.nodes[1].items| == |s.nodes[3].items| == 2
            && s.nodes[1].items[1] != s.nodes[3].items[1]
  {
    var rules := Rules(true, true);
    ReachedClosed(5, rules);
    var s := SecondCommit(Reached(5, rules), 5, rules);
    es :| Lawful(5, es, rules) && After(5, es) == s;
  }
}
