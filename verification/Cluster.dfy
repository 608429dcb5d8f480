/**
 The whole `node/` cluster as a machine over events: any number of nodes, their
 running elections, every message ever put on the network, and a history of votes,
 wins and originated entries that the program itself does not keep.

 A run is any list of events.  An event that is not possible in the state it meets
 changes nothing.  Messages are never removed, so the network may lose, delay,
 reorder and repeat them.
 */
module Cluster {
  import opened Basics
  import opened NodeModel

  datatype Msg =
    | ElectReq(from: nat, to: nat, round: nat, election: ElectionRequest)
    | ElectRep(from: nat, to: nat, round: nat, vote: ElectionReply)
    | HeartReq(from: nat, to: nat, heart: HeartRequest)
    | AppendReq(from: nat, to: nat, catchUp: bool, append: AppendRequest)
    | AppendRep(from: nat, to: nat, catchUp: bool, ack: AppendReply)

  /** The local state of one activation of `election()`: the RPCs not yet issued, those
      awaiting a reply, and (history) the campaign's term and the nodes whose accept was counted. */
  datatype Campaign = Campaign(round: nat, term: nat, active: bool, unsent: set<nat>, awaiting: set<nat>, granted: set<nat>)

  type Votes = map<(nat, nat), nat>           // (term, voter) to the candidate voted for
  type Wins = map<(nat, nat), set<nat>>       // (term, winner) to the nodes counted
  type Origins = map<(nat, nat), seq<Item>>   // (index, term) to the list ending in the originated item

  datatype State = State(nodes: seq<NodeData>, camps: seq<Campaign>, net: set<Msg>,
                         voted: Votes, won: Wins, origin: Origins)

  datatype Event =
    | Timeout(i: nat)
    | Begin(i: nat)
    | SendElect(i: nat, j: nat)
    | DeliverElect(m: Msg)
    | CollectElect(m: Msg)
    | FailElect(i: nat, j: nat)
    | Finish(i: nat)
    | SendHeart(i: nat, w: nat)
    | DeliverHeart(m: Msg)
    | Originate(i: nat, term: nat, value: string, stored: bool)
    | SendAppend(i: nat, w: nat, k: nat, catchUp: bool)
    | DeliverAppend(m: Msg, stored: bool)
    | CollectAppend(m: Msg, w: nat)
    | CheckCommits(i: nat)

  const INIT_ITEM := Item(0, 0, "init")

  ghost function Init(n: nat): State {
    State(seq(n, i requires 0 <= i < n => Created(n, i)),
          seq(n, i => Campaign(0, 0, false, {}, {}, {})),
          {}, map[], map[], map[(0, 0) := [INIT_ITEM]])
  }

  ghost predicate Enabled(s: State, e: Event)
    requires |s.nodes| == |s.camps|
  {
    match e
    case Timeout(i) => i < |s.nodes|
    case Begin(i) => i < |s.nodes| && s.nodes[i].role == Candidate && !s.camps[i].active
    case SendElect(i, j) => i < |s.nodes| && j in s.camps[i].unsent
    case DeliverElect(m) => m in s.net && m.ElectReq? && m.to < |s.nodes|
    case CollectElect(m) => m in s.net && m.ElectRep? && m.to < |s.nodes|
                            && m.round == s.camps[m.to].round && m.from in s.camps[m.to].awaiting
    case FailElect(i, j) => i < |s.nodes| && (j in s.camps[i].unsent || j in s.camps[i].awaiting)
    case Finish(i) => i < |s.nodes| && s.camps[i].active && s.camps[i].unsent == {} && s.camps[i].awaiting == {}
    case SendHeart(i, w) => i < |s.nodes| && w < |s.nodes[i].others|
    case DeliverHeart(m) => m in s.net && m.HeartReq? && m.to < |s.nodes|
    case Originate(i, term, value, stored) => i < |s.nodes|
    case CheckCommits(i) => i < |s.nodes|
    case SendAppend(i, w, k, catchUp) => i < |s.nodes| && w < |s.nodes[i].others| && k < |s.nodes[i].items|
                                         && (catchUp || k == |s.nodes[i].items| - 1)
    case DeliverAppend(m, stored) => m in s.net && m.AppendReq? && m.to < |s.nodes|
    case CollectAppend(m, w) => m in s.net && m.AppendRep? && m.ack.accept && !m.catchUp && m.to < |s.nodes|
                                && w < |s.nodes[m.to].others| && s.nodes[m.to].others[w].peer == m.from
  }

  /** What an enabled event does. */
  ghost function Effect(s: State, e: Event): (t: State)
    requires |s.nodes| == |s.camps| && Enabled(s, e)
    ensures |t.nodes| == |t.camps| == |s.nodes|
  {
    match e
    case Timeout(i) => s.(nodes := s.nodes[i := s.nodes[i].(role := Candidate)])
    case Begin(i) =>
      var n := s.nodes[i];
      s.(nodes := s.nodes[i := BeginCampaign(n)],
         camps := s.camps[i := Campaign(s.camps[i].round + 1, n.term + 1, true,
                                        set w | w in n.others :: w.peer, {}, {i})],
         voted := s.voted[(n.term + 1, i) := i])
    case SendElect(i, j) =>
      var n, c := s.nodes[i], s.camps[i];
      s.(camps := s.camps[i := c.(unsent := c.unsent - {j}, awaiting := c.awaiting + {j})],
         net := s.net + {ElectReq(i, j, c.round, ElectionRequest(i, n.term, n.acceptIndex))})
    case DeliverElect(m) =>
      var (n, r) := HandleElection(s.nodes[m.to], m.election);
      s.(nodes := s.nodes[m.to := n],
         net := s.net + {ElectRep(m.to, m.from, m.round, r)},
         voted := if r.accept then s.voted[(m.election.term, m.to) := m.from] else s.voted)
    case CollectElect(m) =>
      var c := s.camps[m.to];
      s.(nodes := s.nodes[m.to := OnElectReply(s.nodes[m.to], m.vote)],
         camps := s.camps[m.to := c.(awaiting := c.awaiting - {m.from},
                                     granted := if m.vote.accept then c.granted + {m.from} else c.granted)])
    case FailElect(i, j) =>
      var c := s.camps[i];
      s.(camps := s.camps[i := c.(unsent := c.unsent - {j}, awaiting := c.awaiting - {j})])
    case Finish(i) =>
      var n, c := s.nodes[i], s.camps[i];
      var done := s.(camps := s.camps[i := c.(active := false)]);
      if HasMajority(n) then
        done.(nodes := s.nodes[i := EndCampaign(n)], won := s.won[(n.term, i) := c.granted])
      else done
    case SendHeart(i, w) =>
      var n := s.nodes[i];
      s.(net := s.net + {HeartReq(i, n.others[w].peer, HeartRequest(i, n.term, Offer(n.others[w])))})
    case DeliverHeart(m) =>
      s.(nodes := s.nodes[m.to := HandleHeart(s.nodes[m.to], m.heart).0])
    case Originate(i, term, value, stored) =>
      var a := OwnAppend(s.nodes[i], term, value);
      var n := HandleAppend(s.nodes[i], a, stored).0;
      s.(nodes := s.nodes[i := n],
         origin := if stored then s.origin[(a.entry.index, term) := n.items] else s.origin)
    case SendAppend(i, w, k, catchUp) =>
      var n := s.nodes[i];
      s.(net := s.net + {AppendReq(i, n.others[w].peer, catchUp, AppendOf(n, n.others[w], n.items[k]))})
    case DeliverAppend(m, stored) =>
      var (n, r) := HandleAppend(s.nodes[m.to], m.append, stored);
      s.(nodes := s.nodes[m.to := n],
         net := if r.Some? then s.net + {AppendRep(m.to, m.from, m.catchUp, r.value)} else s.net)
    case CollectAppend(m, w) =>
      s.(nodes := s.nodes[m.to := CollectAccept(s.nodes[m.to], w, m.ack)])
    case CheckCommits(i) => s.(nodes := s.nodes[i := CheckCommit(s.nodes[i])])
  }

  ghost function Next(s: State, e: Event): (t: State)
    requires |s.nodes| == |s.camps|
    ensures |t.nodes| == |t.camps| == |s.nodes|
  {
    if Enabled(s, e) then Effect(s, e) else s
  }

  /** The state a run of n nodes reaches. */
  ghost function After(n: nat, es: seq<Event>): (s: State)
    ensures |s.nodes| == |s.camps| == n
  {
    if es == [] then Init(n) else Next(After(n, es[..|es| - 1]), es[|es| - 1])
  }

  lemma AfterLast(n: nat, es: seq<Event>, more: seq<Event>)
    requires more != []
    ensures (es + more)[..|es + more| - 1] == es + more[..|more| - 1]
    ensures After(n, es + more) == Next(After(n, es + more[..|more| - 1]), more[|more| - 1])
  {
  }

  // ---------------------------------------------------------------------------
  // What a run may be asked to respect
  // ---------------------------------------------------------------------------

  /** An accepted Append does not take the receiver back to an earlier term. */
  ghost predicate KeepsTerm(s: State, e: Event)
    requires |s.nodes| == |s.camps|
  {
    Enabled(s, e) ==>
      match e
      case DeliverAppend(m, stored) =>
        stored && Fits(s.nodes[m.to].items, m.append) ==> m.append.entry.term >= s.nodes[m.to].term
      case Originate(i, term, value, stored) => stored ==> term >= s.nodes[i].term
      case _ => true
  }

  /** A candidate that wins is still in the term it campaigned for. */
  ghost predicate Rechecks(s: State, e: Event)
    requires |s.nodes| == |s.camps|
  {
    e.Finish? && Enabled(s, e) && HasMajority(s.nodes[e.i]) ==> s.nodes[e.i].term == s.camps[e.i].term
  }

  /** Client values enter at a leader, in the leader's own term. */
  ghost predicate LeaderOriginates(s: State, e: Event)
    requires |s.nodes| == |s.camps|
  {
    e.Originate? && Enabled(s, e) && e.stored ==> s.nodes[e.i].role == Leader && e.term == s.nodes[e.i].term
  }

  /** No entry with this index and term was originated before. */
  ghost predicate FreshOrigin(s: State, e: Event)
    requires |s.nodes| == |s.camps|
  {
    e.Originate? && Enabled(s, e) && e.stored ==> (Tail(s.nodes[e.i].items).index + 1, e.term) !in s.origin
  }

  ghost predicate TermKeeping(n: nat, es: seq<Event>) {
    es == [] ||
    (TermKeeping(n, es[..|es| - 1]) && KeepsTerm(After(n, es[..|es| - 1]), es[|es| - 1]))
  }

  ghost predicate Rechecking(n: nat, es: seq<Event>) {
    es == [] ||
    (Rechecking(n, es[..|es| - 1]) && Rechecks(After(n, es[..|es| - 1]), es[|es| - 1]))
  }

  ghost predicate LeaderFed(n: nat, es: seq<Event>) {
    es == [] ||
    (LeaderFed(n, es[..|es| - 1]) && LeaderOriginates(After(n, es[..|es| - 1]), es[|es| - 1]))
  }

  ghost predicate FreshlyFed(n: nat, es: seq<Event>) {
    es == [] ||
    (FreshlyFed(n, es[..|es| - 1]) && FreshOrigin(After(n, es[..|es| - 1]), es[|es| - 1]))
  }

  // ---------------------------------------------------------------------------
  // Shape: identities and peer tables never change
  // ---------------------------------------------------------------------------

  ghost predicate DistinctPeers(ws: seq<WorkNode>) {
    forall a, b :: 0 <= a < b < |ws| ==> ws[a].peer != ws[b].peer
  }

  ghost predicate ShapeOk(s: State, i: nat)
    requires i < |s.nodes|
  {
    var n := s.nodes[i];
    && n.id == i
    && n.config == |s.nodes|
    && |n.others| + 1 == n.config
    && DistinctPeers(n.others)
    && (forall w :: 0 <= w < |n.others| ==> n.others[w].peer < n.config && n.others[w].peer != i)
  }

  ghost predicate CallsOk(s: State, i: nat)
    requires i < |s.camps|
  {
    forall j :: j in s.camps[i].unsent || j in s.camps[i].awaiting ==> j < |s.nodes| && j != i
  }

  ghost predicate MailShape(s: State, m: Msg) {
    m.from < |s.nodes| && m.to < |s.nodes| && m.from != m.to && (m.AppendReq? ==> m.append.from == m.from)
  }

  ghost predicate Shape(s: State) {
    && |s.nodes| == |s.camps|
    && (forall i :: 0 <= i < |s.nodes| ==> ShapeOk(s, i))
    && (forall m :: m in s.net ==> MailShape(s, m))
    && (forall i :: 0 <= i < |s.nodes| ==> CallsOk(s, i))
  }

  lemma {:induction false} OthersShape(index: nat, n: nat)
    ensures var ws := OthersUpTo(index, n);
            && |ws| == (if index < n then n - 1 else n)
            && DistinctPeers(ws)
            && (forall w :: 0 <= w < |ws| ==> ws[w].peer < n && ws[w].peer != index && ws[w] == WorkNode(ws[w].peer, 0, 0))
  {
    if n > 0 {
      OthersShape(index, n - 1);
    }
  }

  lemma InitShape(n: nat)
    ensures Shape(Init(n))
  {
    forall i | 0 <= i < n
      ensures ShapeOk(Init(n), i)
    {
      OthersShape(i, n);
    }
  }

  /** Only a collected accept touches a node's peer table and accept index, and it keeps the peers. */
  lemma TablesUntouched(s: State, e: Event, i: nat)
    requires |s.nodes| == |s.camps| && i < |s.nodes|
    requires !(e.CollectAppend? && Enabled(s, e) && e.m.to == i)
    ensures var (n, n') := (s.nodes[i], Next(s, e).nodes[i]);
            n'.id == n.id && n'.config == n.config && n'.others == n.others && n'.acceptIndex == n.acceptIndex
  {
  }

  lemma NodeShapeStep(s: State, e: Event, i: nat)
    requires Shape(s) && Enabled(s, e) && i < |s.nodes|
    ensures ShapeOk(Effect(s, e), i)
  {
    assert ShapeOk(s, i);
    if e.CollectAppend? && e.m.to == i {
    } else {
      TablesUntouched(s, e, i);
    }
  }

  lemma CallShapeStep(s: State, e: Event, i: nat)
    requires Shape(s) && Enabled(s, e) && i < |s.nodes|
    ensures CallsOk(Effect(s, e), i)
  {
    assert ShapeOk(s, i) && CallsOk(s, i);
  }

  lemma NetShapeStep(s: State, e: Event, m: Msg)
    requires Shape(s) && Enabled(s, e) && m in Effect(s, e).net
    ensures MailShape(Effect(s, e), m)
  {
    if m in s.net {
      assert MailShape(s, m);
    } else if e.DeliverElect? || e.DeliverAppend? {
      assert MailShape(s, e.m);
    } else if e.SendElect? || e.SendHeart? || e.SendAppend? {
      assert ShapeOk(s, e.i) && CallsOk(s, e.i);
    }
  }

  lemma ShapeStep(s: State, e: Event)
    requires Shape(s)
    ensures Shape(Next(s, e))
  {
    if Enabled(s, e) {
      var t := Effect(s, e);
      forall i | 0 <= i < |s.nodes|
        ensures ShapeOk(t, i) && CallsOk(t, i)
      {
        NodeShapeStep(s, e, i);
        CallShapeStep(s, e, i);
      }
      forall m | m in t.net
        ensures MailShape(t, m)
      {
        NetShapeStep(s, e, m);
      }
    }
  }

  lemma {:induction false} AlwaysShape(n: nat, es: seq<Event>)
    ensures Shape(After(n, es))
  {
    if es == [] {
      InitShape(n);
    } else {
      AlwaysShape(n, es[..|es| - 1]);
      ShapeStep(After(n, es[..|es| - 1]), es[|es| - 1]);
    }
  }
}
