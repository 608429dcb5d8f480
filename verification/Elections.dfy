/**
 Election safety: in every run in which no Append moves a node back to an earlier term
 and no candidate wins outside the term it campaigned for, a term has at most one winner.
 */
module Elections {
  import opened NodeModel
  import opened Cluster

  /** Votes once recorded stay as they are. */
  ghost predicate VotesGrow(a: Votes, b: Votes) {
    forall k :: k in a ==> k in b && b[k] == a[k]
  }

  ghost predicate VotedFor(voted: Votes, term: nat, voters: set<nat>, candidate: nat) {
    forall v :: v in voters ==> (term, v) in voted && voted[(term, v)] == candidate
  }

  /** No vote lies ahead of its voter's term. */
  ghost predicate VotesPast(s: State) {
    forall t, v :: (t, v) in s.voted ==> v < |s.nodes| && t <= s.nodes[v].term
  }

  /** The accepts a running campaign has counted come from different nodes, the candidate among them. */
  ghost predicate CountOk(s: State, i: nat)
    requires Shape(s) && i < |s.nodes|
  {
    var n, c := s.nodes[i], s.camps[i];
    && (!c.active ==> c.unsent == {} && c.awaiting == {})
    && (c.active ==>
          && n.oath == |c.granted|
          && c.granted !! c.unsent !! c.awaiting
          && (forall v :: v in c.granted ==> v < |s.nodes|))
  }

  ghost predicate CountInv(s: State) {
    Shape(s) && forall i :: 0 <= i < |s.nodes| ==> CountOk(s, i)
  }

  /** While the term has not moved on, each counted accept is a vote for this candidate in this term. */
  ghost predicate TallyOk(s: State, i: nat)
    requires Shape(s) && i < |s.nodes|
  {
    var n, c := s.nodes[i], s.camps[i];
    c.term <= n.term && (c.active && n.term == c.term ==> VotedFor(s.voted, c.term, c.granted, i))
  }

  /** Requests and replies of the current round speak of the campaign's term, unless the term moved on;
      every accepting reply reports a recorded vote. */
  ghost predicate MailOk(s: State, m: Msg)
    requires Shape(s) && m.from < |s.nodes| && m.to < |s.nodes|
  {
    match m
    case ElectReq(from, to, round, q) =>
      && round <= s.camps[from].round
      && (round == s.camps[from].round && s.nodes[from].term == s.camps[from].term ==> q.term == s.camps[from].term)
    case ElectRep(from, to, round, r) =>
      && round <= s.camps[to].round
      && (r.accept ==>
            && (r.term, from) in s.voted && s.voted[(r.term, from)] == to
            && (round == s.camps[to].round && s.nodes[to].term == s.camps[to].term ==> r.term == s.camps[to].term))
    case _ => true
  }

  ghost predicate WinOk(s: State, term: nat, i: nat)
    requires (term, i) in s.won
  {
    var q := s.won[(term, i)];
    && 2 * |q| > |s.nodes|
    && (forall v :: v in q ==> v < |s.nodes|)
    && VotedFor(s.voted, term, q, i)
  }

  /** What term keeping alone maintains. */
  ghost predicate VoteInv(s: State) {
    && CountInv(s)
    && VotesPast(s)
    && (forall i :: 0 <= i < |s.nodes| ==> TallyOk(s, i))
    && (forall m :: m in s.net ==> MailOk(s, m))
  }

  ghost predicate Inv(s: State) {
    VoteInv(s) && forall t, i :: (t, i) in s.won ==> WinOk(s, t, i)
  }

  lemma TermsGrow(s: State, e: Event, i: nat)
    requires Shape(s) && KeepsTerm(s, e) && i < |s.nodes|
    ensures s.nodes[i].term <= Next(s, e).nodes[i].term
  {
  }

  /** The guard is exact: an event lowers some node's term iff it is an accepted Append that breaks it. */
  lemma TermFallsIff(s: State, e: Event)
    requires Shape(s)
    ensures KeepsTerm(s, e) <==> forall i :: 0 <= i < |s.nodes| ==> s.nodes[i].term <= Next(s, e).nodes[i].term
  {
    ShapeStep(s, e);
    if Enabled(s, e) && !KeepsTerm(s, e) {
      var i := if e.Originate? then e.i else e.m.to;
      assert Next(s, e).nodes[i].term < s.nodes[i].term;
    }
  }

  lemma VotesStep(s: State, e: Event)
    requires VoteInv(s) && KeepsTerm(s, e)
    ensures Shape(Next(s, e))
    ensures VotesGrow(s.voted, Next(s, e).voted)
    ensures VotesPast(Next(s, e))
  {
    ShapeStep(s, e);
    var t := Next(s, e);
    forall k | k in s.voted
      ensures k in t.voted && t.voted[k] == s.voted[k]
    {
      assert (k.0, k.1) in s.voted;
    }
    forall u, v | (u, v) in t.voted
      ensures v < |t.nodes| && u <= t.nodes[v].term
    {
      if (u, v) in s.voted {
        TermsGrow(s, e, v);
      }
    }
  }

  ghost predicate OfCampaign(e: Event, i: nat) {
    ((e.Begin? || e.SendElect? || e.FailElect? || e.Finish?) && e.i == i) || (e.CollectElect? && e.m.to == i)
  }

  lemma CampaignUntouched(s: State, e: Event, i: nat)
    requires Shape(s) && i < |s.nodes| && Shape(Next(s, e)) && (OfCampaign(e, i) ==> !Enabled(s, e))
    ensures Next(s, e).camps[i] == s.camps[i] && Next(s, e).nodes[i].oath == s.nodes[i].oath
  {
  }

  /** A reply's sender was still awaited, so it had not been counted. */
  lemma CountCollect(s: State, e: Event)
    requires CountInv(s) && e.CollectElect? && Enabled(s, e) && Shape(Next(s, e))
    ensures CountOk(Next(s, e), e.m.to)
  {
    assert CountOk(s, e.m.to) && MailShape(s, e.m);
    var c := s.camps[e.m.to];
    assert |c.granted + {e.m.from}| == |c.granted| + 1;
  }

  lemma CountBegin(s: State, e: Event)
    requires CountInv(s) && e.Begin? && Enabled(s, e) && Shape(Next(s, e))
    ensures CountOk(Next(s, e), e.i)
  {
    assert ShapeOk(s, e.i);
  }

  lemma CountCalls(s: State, e: Event)
    requires CountInv(s) && (e.SendElect? || e.FailElect? || e.Finish?) && Enabled(s, e) && Shape(Next(s, e))
    ensures CountOk(Next(s, e), e.i)
  {
    assert CountOk(s, e.i);
  }

  lemma CountStep(s: State, e: Event)
    requires CountInv(s)
    ensures CountInv(Next(s, e))
  {
    ShapeStep(s, e);
    forall i | 0 <= i < |Next(s, e).nodes|
      ensures CountOk(Next(s, e), i)
    {
      if !OfCampaign(e, i) || !Enabled(s, e) {
        CampaignUntouched(s, e, i);
        assert CountOk(s, i);
      } else if e.CollectElect? {
        CountCollect(s, e);
      } else if e.Begin? {
        CountBegin(s, e);
      } else {
        CountCalls(s, e);
      }
    }
  }

  /** On every run at all, a candidate's count is a number of different nodes. */
  lemma {:induction false} AlwaysCount(n: nat, es: seq<Event>)
    ensures CountInv(After(n, es))
  {
    if es == [] {
      InitShape(n);
    } else {
      AlwaysCount(n, es[..|es| - 1]);
      CountStep(After(n, es[..|es| - 1]), es[|es| - 1]);
    }
  }

  /** An event that is no part of i's campaign leaves i's tally good, whatever it does to i's term. */
  lemma TallyFrame(s: State, t: State, i: nat)
    requires Shape(s) && Shape(t) && |s.nodes| == |t.nodes| && i < |s.nodes| && TallyOk(s, i)
    requires t.camps[i] == s.camps[i] && s.nodes[i].term <= t.nodes[i].term
    requires VotesGrow(s.voted, t.voted)
    ensures TallyOk(t, i)
  {
  }

  lemma TallyCampaign(s: State, e: Event, i: nat)
    requires VoteInv(s) && OfCampaign(e, i) && i < |s.nodes| && Enabled(s, e) && Shape(Next(s, e))
    ensures TallyOk(Next(s, e), i)
  {
    assert TallyOk(s, i);
    if e.CollectElect? {
      assert MailOk(s, e.m);
    }
  }

  lemma TallyStep(s: State, e: Event, i: nat)
    requires VoteInv(s) && KeepsTerm(s, e) && i < |s.nodes|
    requires Shape(Next(s, e)) && VotesGrow(s.voted, Next(s, e).voted)
    ensures TallyOk(Next(s, e), i)
  {
    if OfCampaign(e, i) && Enabled(s, e) {
      TallyCampaign(s, e, i);
    } else {
      CampaignUntouched(s, e, i);
      TermsGrow(s, e, i);
      TallyFrame(s, Next(s, e), i);
    }
  }

  /** A campaign's term changes only with its round. */
  lemma RoundStep(s: State, e: Event, i: nat)
    requires |s.nodes| == |s.camps| && i < |s.nodes|
    ensures var (c, c') := (s.camps[i], Next(s, e).camps[i]);
            c.round <= c'.round && (c.round == c'.round ==> c.term == c'.term)
  {
  }

  lemma MailFrame(s: State, t: State, m: Msg, who: nat)
    requires Shape(s) && Shape(t) && |s.nodes| == |t.nodes| && m.from < |s.nodes| && m.to < |s.nodes| && MailOk(s, m)
    requires who == (if m.ElectReq? then m.from else m.to) && TallyOk(s, who)
    requires s.nodes[who].term <= t.nodes[who].term && VotesGrow(s.voted, t.voted)
    requires var (c, c') := (s.camps[who], t.camps[who]); c.round <= c'.round && (c.round == c'.round ==> c.term == c'.term)
    ensures MailOk(t, m)
  {
  }

  lemma MailNew(s: State, e: Event, m: Msg)
    requires VoteInv(s) && m in Next(s, e).net && m !in s.net && Shape(Next(s, e))
    ensures MailOk(Next(s, e), m)
  {
    if e.DeliverElect? {
      assert MailOk(s, e.m) && MailShape(s, e.m) && TallyOk(s, e.m.from);
    }
  }

  lemma MailStep(s: State, e: Event, m: Msg)
    requires VoteInv(s) && KeepsTerm(s, e) && m in Next(s, e).net
    requires Shape(Next(s, e)) && VotesGrow(s.voted, Next(s, e).voted)
    ensures MailOk(Next(s, e), m)
  {
    if m in s.net {
      var who := if m.ElectReq? then m.from else m.to;
      assert MailShape(s, m);
      RoundStep(s, e, who);
      TermsGrow(s, e, who);
      MailFrame(s, Next(s, e), m, who);
    } else {
      MailNew(s, e, m);
    }
  }

  /** A recorded win is an old one, or the event is its election's end. */
  lemma WonNow(s: State, e: Event, term: nat, i: nat)
    requires |s.nodes| == |s.camps| && (term, i) in Next(s, e).won
    ensures || ((term, i) in s.won && Next(s, e).won[(term, i)] == s.won[(term, i)])
            || (e == Finish(i) && Enabled(s, e) && HasMajority(s.nodes[i]) && term == s.nodes[i].term
                && Next(s, e).won[(term, i)] == s.camps[i].granted)
  {
    if !(e.Finish? && Enabled(s, e)) {
      assert Next(s, e).won == s.won;
    }
  }

  lemma WinStep(s: State, e: Event, term: nat, i: nat)
    requires Inv(s) && Rechecks(s, e) && (term, i) in Next(s, e).won
    requires Shape(Next(s, e)) && VotesGrow(s.voted, Next(s, e).voted)
    ensures WinOk(Next(s, e), term, i)
  {
    WonNow(s, e, term, i);
    if e == Finish(i) && Enabled(s, e) {
      assert TallyOk(s, i) && CountOk(s, i) && ShapeOk(s, i);
    }
    if (term, i) in s.won {
      assert WinOk(s, term, i);
    }
  }

  lemma VoteInvStep(s: State, e: Event)
    requires VoteInv(s) && KeepsTerm(s, e)
    ensures VoteInv(Next(s, e)) && VotesGrow(s.voted, Next(s, e).voted)
  {
    VotesStep(s, e);
    CountStep(s, e);
    var t := Next(s, e);
    forall i | 0 <= i < |t.nodes| ensures TallyOk(t, i) { TallyStep(s, e, i); }
    forall m | m in t.net ensures MailOk(t, m) { MailStep(s, e, m); }
  }

  lemma InvStep(s: State, e: Event)
    requires Inv(s) && KeepsTerm(s, e) && Rechecks(s, e)
    ensures Inv(Next(s, e))
  {
    VoteInvStep(s, e);
    var t := Next(s, e);
    forall u, i | (u, i) in t.won ensures WinOk(t, u, i) { WinStep(s, e, u, i); }
  }

  lemma {:induction false} AlwaysVotes(n: nat, es: seq<Event>)
    requires TermKeeping(n, es)
    ensures VoteInv(After(n, es))
  {
    if es == [] {
      InitShape(n);
    } else {
      AlwaysVotes(n, es[..|es| - 1]);
      VoteInvStep(After(n, es[..|es| - 1]), es[|es| - 1]);
    }
  }

  lemma {:induction false} Always(n: nat, es: seq<Event>)
    requires TermKeeping(n, es) && Rechecking(n, es)
    ensures Inv(After(n, es))
  {
    if es == [] {
      InitShape(n);
    } else {
      Always(n, es[..|es| - 1]);
      InvStep(After(n, es[..|es| - 1]), es[|es| - 1]);
    }
  }

  // ---------------------------------------------------------------------------
  // The second rule is exact
  // ---------------------------------------------------------------------------

  /** A campaigning node counted itself, and since it began has given itself no vote of a later term. */
  ghost predicate OwnVoteOk(s: State, i: nat)
    requires |s.nodes| == |s.camps| && i < |s.nodes|
  {
    var c := s.camps[i];
    c.active ==> i in c.granted && forall t :: (t, i) in s.voted && t > c.term ==> s.voted[(t, i)] != i
  }

  lemma OwnVoteStep(s: State, e: Event, i: nat)
    requires VoteInv(s) && i < |s.nodes| && OwnVoteOk(s, i) && Shape(Next(s, e))
    ensures OwnVoteOk(Next(s, e), i)
  {
    if e.DeliverElect? && Enabled(s, e) {
      assert MailShape(s, e.m);
    }
  }

  lemma {:induction false} AlwaysOwnVote(n: nat, es: seq<Event>, i: nat)
    requires TermKeeping(n, es) && i < n
    ensures OwnVoteOk(After(n, es), i)
  {
    if es != [] {
      var front := es[..|es| - 1];
      AlwaysOwnVote(n, front, i);
      AlwaysVotes(n, front);
      ShapeStep(After(n, front), es[|es| - 1]);
      OwnVoteStep(After(n, front), es[|es| - 1], i);
    }
  }

  /** A win is backed by a majority of votes for its own term iff the winner is still in the term of its
      campaign: otherwise the vote it counted for itself was cast for an earlier term. */
  lemma WinBackedIff(n: nat, es: seq<Event>, i: nat)
    requires TermKeeping(n, es) && i < n
    requires Enabled(After(n, es), Finish(i)) && HasMajority(After(n, es).nodes[i])
    ensures var (s, t) := (After(n, es), Next(After(n, es), Finish(i)));
            && (s.nodes[i].term, i) in t.won
            && (WinOk(t, s.nodes[i].term, i) <==> s.nodes[i].term == s.camps[i].term)
  {
    var s := After(n, es);
    AlwaysVotes(n, es);
    AlwaysOwnVote(n, es, i);
    assert TallyOk(s, i) && CountOk(s, i) && ShapeOk(s, i);
  }

  lemma {:induction false} BelowSize(q: set<nat>, n: nat)
    requires forall v :: v in q ==> v < n
    ensures |q| <= n
  {
    if n > 0 {
      BelowSize(q - {n - 1}, n - 1);
    } else {
      assert q == {};
    }
  }

  /** Two majorities of the same n nodes share a member. */
  lemma MajoritiesMeet(p: set<nat>, q: set<nat>, n: nat) returns (v: nat)
    requires forall v :: v in p + q ==> v < n
    requires 2 * |p| > n && 2 * |q| > n
    ensures v in p && v in q
  {
    BelowSize(p + q, n);
    assert |p + q| == |p| + |q| - |p * q|;
    assert p * q != {};
    v :| v in p * q;
  }

  lemma SafeState(s: State, term: nat, i: nat, j: nat)
    requires Inv(s) && (term, i) in s.won && (term, j) in s.won
    ensures i == j
  {
    assert WinOk(s, term, i) && WinOk(s, term, j);
    var v := MajoritiesMeet(s.won[(term, i)], s.won[(term, j)], |s.nodes|);
  }

  /** No two nodes win the same term. */
  lemma ElectionSafety(n: nat, es: seq<Event>, term: nat, i: nat, j: nat)
    requires TermKeeping(n, es) && Rechecking(n, es)
    requires (term, i) in After(n, es).won && (term, j) in After(n, es).won
    ensures i == j
  {
    Always(n, es);
    SafeState(After(n, es), term, i, j);
  }

  /** A node's vote in a term, its vote for itself included, is never changed by what follows. */
  lemma {:induction false} VoteOnce(n: nat, es: seq<Event>, more: seq<Event>)
    requires TermKeeping(n, es + more)
    ensures VotesGrow(After(n, es).voted, After(n, es + more).voted)
  {
    if more == [] {
      assert es + more == es;
    } else {
      var front := more[..|more| - 1];
      AfterLast(n, es, more);
      VoteOnce(n, es, front);
      AlwaysVotes(n, es + front);
      VotesStep(After(n, es + front), more[|more| - 1]);
    }
  }
}
