/**
 The role machine of `raft.go`: what messages and ticks do to term, vote, role, leader,
 timers and leadership transfer.  What the log, the vote tally and the progress records
 contribute to a step is given by an environment; a panic is the absence of a next state.
 */
module Roles {
  import opened Basics
  import Quorum

  datatype Role = Follower | Candidate | Leader | PreCandidate
  datatype StepFunction = StepFollower | StepCandidate | StepLeader
  datatype TickFunction = TickElection | TickHeartbeat

  const NONE: nat := 0

  datatype Raft = Raft(
    id: nat, term: nat, vote: nat, role: Role, lead: nat, transferee: nat,
    electionElapsed: nat, heartbeatElapsed: nat, randomized: nat,
    electionTimeout: nat, heartbeatTimeout: nat, checkQuorum: bool, preVote: bool,
    step: StepFunction, tick: TickFunction)

  datatype Kind =
    | Hup | Beat | Prop | App | AppResp | Vote | VoteResp | Snap | Heartbeat | HeartbeatResp
    | Unreachable | SnapStatus | CheckQuorum | TransferLeader | TimeoutNow
    | ReadIndex | ReadIndexResp | PreVote | PreVoteResp

  /** `transfer` says that the context is that of a transfer campaign. */
  datatype Msg = Msg(kind: Kind, from: nat, term: nat, reject: bool, transfer: bool)

  /** What the rest of the node answers during one event. */
  datatype Env = Env(
    upToDate: bool,      // the log check on a vote request
    promotable: bool, pendingConf: bool, peers: bool,
    poll: Quorum.Verdict, pollAgain: Quorum.Verdict,
    tracked: bool, learner: bool,   // the sender's progress record
    forwards: bool,      // whether proposals are forwarded to the leader
    randomized: nat,     // the next randomized election timeout
    fails: bool)         // whether log, tracker or logger code called in this event panics

  datatype Campaign = PreElection | Election | Transfer

  predicate FromLeader(k: Kind) {
    k == App || k == Heartbeat || k == Snap
  }

  // ---------------------------------------------------------------------------
  // Transitions
  // ---------------------------------------------------------------------------

  function Reset(r: Raft, term: nat, env: Env): Raft {
    var s := if r.term != term then r.(term := term, vote := NONE) else r;
    s.(lead := NONE, electionElapsed := 0, heartbeatElapsed := 0, randomized := env.randomized, transferee := NONE)
  }

  function BecomeFollower(r: Raft, term: nat, lead: nat, env: Env): Raft {
    Reset(r, term, env).(step := StepFollower, tick := TickElection, lead := lead, role := Follower)
  }

  function BecomeCandidate(r: Raft, env: Env): Option<Raft> {
    if r.role == Leader then None
    else Some(Reset(r, r.term + 1, env).(step := StepCandidate, tick := TickElection, vote := r.id, role := Candidate))
  }

  function BecomeLeader(r: Raft, env: Env): Option<Raft> {
    if r.role == Follower then None
    else Some(Reset(r, r.term, env).(step := StepLeader, tick := TickHeartbeat, lead := r.id, role := Leader))
  }

  /** A plain election asks for pre-votes, which cannot be sent: every such request carries a term. */
  function ElectionCampaign(r: Raft, poll: Quorum.Verdict, env: Env): Option<Raft> {
    if poll == Quorum.VoteWon then BecomeLeader(r, env)
    else if env.peers then None
    else Some(r)
  }

  function DoCampaign(r: Raft, t: Campaign, env: Env): Option<Raft> {
    if t == Election then ElectionCampaign(r, env.poll, env)
    else
      var c := BecomeCandidate(r, env);
      if c.None? then None
      else if env.poll != Quorum.VoteWon then c
      else if t == PreElection then ElectionCampaign(c.value, env.pollAgain, env)
      else BecomeLeader(c.value, env)
  }

  function DoHup(r: Raft, t: Campaign, env: Env): Option<Raft> {
    if r.role == Leader || !env.promotable then Some(r)
    else if env.fails then None
    else if env.pendingConf then Some(r)
    else DoCampaign(r, t, env)
  }

  function LeaderStep(r: Raft, m: Msg, env: Env): Option<Raft> {
    if env.fails then None
    else if m.kind == TransferLeader && env.tracked && !env.learner then
      if r.transferee == m.from && r.transferee != NONE then Some(r)
      else
        var s := r.(transferee := NONE);
        if m.from == r.id then Some(s)
        else Some(s.(electionElapsed := 0, transferee := m.from))
    else Some(r)
  }

  function CandidateStep(r: Raft, m: Msg, env: Env): Option<Raft> {
    if env.fails then None
    else if FromLeader(m.kind) then Some(BecomeFollower(r, m.term, m.from, env))
    else if m.kind == (if r.role == PreCandidate then PreVoteResp else VoteResp) then
      match env.poll
      case VoteWon => if r.role == PreCandidate then DoCampaign(r, Election, env) else BecomeLeader(r, env)
      case VoteLost => Some(BecomeFollower(r, r.term, NONE, env))
      case VotePending => Some(r)
    else Some(r)
  }

  /** Forwarding to the leader panics for a message that carries a term. */
  function FollowerStep(r: Raft, m: Msg, env: Env): Option<Raft> {
    if env.fails then None
    else if FromLeader(m.kind) then Some(r.(electionElapsed := 0, lead := m.from))
    else if m.kind == TimeoutNow then DoHup(r, Transfer, env)
    else if ((m.kind == Prop && env.forwards) || m.kind == TransferLeader || m.kind == ReadIndex)
            && r.lead != NONE && m.term != 0 then None
    else Some(r)
  }

  function RoleStep(r: Raft, m: Msg, env: Env): Option<Raft> {
    match r.step
    case StepFollower => FollowerStep(r, m, env)
    case StepCandidate => CandidateStep(r, m, env)
    case StepLeader => LeaderStep(r, m, env)
  }

  /** A vote response must carry a term, a pre-vote response must not. */
  function VoteStep(r: Raft, m: Msg, env: Env): Option<Raft> {
    var canVote := r.vote == m.from || (r.vote == NONE && r.lead == NONE) || (m.kind == PreVote && m.term > r.term);
    if (m.kind == Vote) == (r.term == 0) then None
    else if canVote && env.upToDate && m.kind == Vote then Some(r.(electionElapsed := 0, vote := m.from))
    else Some(r)
  }

  function Dispatch(r: Raft, m: Msg, env: Env): Option<Raft> {
    if m.kind == Hup then DoHup(r, if r.preVote then PreElection else Election, env)
    else if m.kind == Vote || m.kind == PreVote then VoteStep(r, m, env)
    else RoleStep(r, m, env)
  }

  predicate InLease(r: Raft) {
    r.checkQuorum && r.lead != NONE && r.electionElapsed < r.electionTimeout
  }

  function Step(r: Raft, m: Msg, env: Env): Option<Raft> {
    if m.term == 0 || m.term == r.term then Dispatch(r, m, env)
    else if m.term > r.term then
      if (m.kind == PreVote || m.kind == Vote) && !m.transfer && InLease(r) then Some(r)
      else if m.kind == PreVote || (m.kind == PreVoteResp && !m.reject) then Dispatch(r, m, env)
      else Dispatch(BecomeFollower(r, m.term, if FromLeader(m.kind) then m.from else NONE, env), m, env)
    else if (r.checkQuorum || r.preVote) && (m.kind == Heartbeat || m.kind == App) then Some(r)
    else if m.kind == PreVote then None
    else Some(r)
  }

  function LocalMsg(r: Raft, k: Kind): Msg {
    Msg(k, r.id, 0, false, false)
  }

  function ElectionTick(r: Raft, env: Env): Option<Raft> {
    var s := r.(electionElapsed := r.electionElapsed + 1);
    if env.promotable && s.electionElapsed >= s.randomized
    then Step(s.(electionElapsed := 0), LocalMsg(r, Hup), env) else Some(s)
  }

  /** The election timer running out under a leader also ends a pending transfer. */
  function ElectionTimer(s: Raft, env: Env): Option<Raft> {
    if s.electionElapsed < s.electionTimeout then Some(s)
    else
      var u := s.(electionElapsed := 0);
      var v := if u.checkQuorum then Step(u, LocalMsg(s, CheckQuorum), env) else Some(u);
      if v.Some? && v.value.role == Leader then Some(v.value.(transferee := NONE)) else v
  }

  function HeartbeatTick(r: Raft, env: Env): Option<Raft> {
    var t := ElectionTimer(r.(heartbeatElapsed := r.heartbeatElapsed + 1, electionElapsed := r.electionElapsed + 1), env);
    if t.None? || t.value.role != Leader || t.value.heartbeatElapsed < t.value.heartbeatTimeout then t
    else Step(t.value.(heartbeatElapsed := 0), LocalMsg(r, Beat), env)
  }

  function Tick(r: Raft, env: Env): Option<Raft> {
    if r.tick == TickElection then ElectionTick(r, env) else HeartbeatTick(r, env)
  }

  // ---------------------------------------------------------------------------
  // What every step keeps
  // ---------------------------------------------------------------------------

  ghost predicate Good(r: Raft) {
    && r.id != NONE && 0 < r.heartbeatTimeout < r.electionTimeout
    && r.role != PreCandidate
    && (r.role == Follower ==> r.step == StepFollower && r.tick == TickElection)
    && (r.role == Candidate ==> r.step == StepCandidate && r.tick == TickElection
                                && r.vote == r.id && r.lead == NONE && r.term > 0)
    && (r.role == Leader ==> r.step == StepLeader && r.tick == TickHeartbeat
                             && r.vote == r.id && r.lead == r.id && r.term > 0
                             && r.electionElapsed < r.electionTimeout)
    && (r.transferee != NONE ==> r.role == Leader && r.transferee != r.id)
  }

  /** A new node: `newRaft` ends by becoming a follower of nobody. */
  ghost predicate Initial(r: Raft) {
    && r.id != NONE && 0 < r.heartbeatTimeout < r.electionTimeout
    && r.role == Follower && r.step == StepFollower && r.tick == TickElection
    && r.term == 0 && r.vote == NONE && r.lead == NONE && r.transferee == NONE
  }

  lemma InitialIsGood(r: Raft)
    requires Initial(r)
    ensures Good(r)
  {
  }

  /** The term does not fall, and a vote once cast stands for its term. */
  ghost predicate Onward(r: Raft, s: Raft) {
    && r.term <= s.term
    && (r.term == s.term && r.vote != NONE ==> s.vote == r.vote)
  }

  ghost predicate SameNode(r: Raft, s: Raft) {
    s.id == r.id && s.electionTimeout == r.electionTimeout
  }

  /** A candidate follows whoever sends it a leader's message, into the term that the message names; `send`
      lets such messages out only without a term, which reads as term 0. */
  predicate SendsBack(r: Raft, m: Msg) {
    r.role == Candidate && FromLeader(m.kind) && m.term == 0
  }

  lemma FollowerGood(r: Raft, term: nat, lead: nat, env: Env)
    requires Good(r)
    ensures var s := BecomeFollower(r, term, lead, env);
            Good(s) && SameNode(r, s) && (r.term <= term ==> Onward(r, s))
  {
  }

  lemma HupGood(r: Raft, t: Campaign, env: Env)
    requires Good(r) && DoHup(r, t, env).Some?
    ensures var s := DoHup(r, t, env).value; Good(s) && SameNode(r, s) && Onward(r, s)
  {
  }

  lemma VoteGood(r: Raft, m: Msg, env: Env)
    requires Good(r) && VoteStep(r, m, env).Some?
    ensures var s := VoteStep(r, m, env).value; Good(s) && SameNode(r, s) && Onward(r, s)
  {
  }

  lemma RoleGood(r: Raft, m: Msg, env: Env)
    requires Good(r) && RoleStep(r, m, env).Some?
    ensures var s := RoleStep(r, m, env).value;
            Good(s) && SameNode(r, s) && ((r.role == Candidate && FromLeader(m.kind) ==> r.term <= m.term) ==> Onward(r, s))
  {
    if r.role == Follower && m.kind == TimeoutNow && !env.fails {
      HupGood(r, Transfer, env);
    } else if r.role == Candidate && FromLeader(m.kind) {
      FollowerGood(r, m.term, m.from, env);
    }
  }

  lemma DispatchGood(r: Raft, m: Msg, env: Env)
    requires Good(r) && Dispatch(r, m, env).Some?
    ensures var s := Dispatch(r, m, env).value;
            Good(s) && SameNode(r, s) && ((r.role == Candidate && FromLeader(m.kind) ==> r.term <= m.term) ==> Onward(r, s))
  {
    if m.kind == Hup {
      HupGood(r, if r.preVote then PreElection else Election, env);
    } else if m.kind == Vote || m.kind == PreVote {
      VoteGood(r, m, env);
    } else {
      RoleGood(r, m, env);
    }
  }

  /** Every step keeps the roles consistent; only a candidate sent back loses its term or vote. */
  lemma StepGood(r: Raft, m: Msg, env: Env)
    requires Good(r) && Step(r, m, env).Some?
    ensures var s := Step(r, m, env).value;
            Good(s) && SameNode(r, s) && (!SendsBack(r, m) ==> Onward(r, s))
  {
    if m.term == 0 || m.term == r.term {
      DispatchGood(r, m, env);
    } else if m.term > r.term {
      var lead := if FromLeader(m.kind) then m.from else NONE;
      FollowerGood(r, m.term, lead, env);
      if (m.kind == PreVote || m.kind == Vote) && !m.transfer && InLease(r) {
      } else if m.kind == PreVote || (m.kind == PreVoteResp && !m.reject) {
        DispatchGood(r, m, env);
      } else {
        DispatchGood(BecomeFollower(r, m.term, lead, env), m, env);
      }
    }
  }

  /** The messages a leader's timers send it leave these fields alone. */
  lemma LeaderLocal(r: Raft, k: Kind, env: Env)
    requires r.step == StepLeader && (k == Beat || k == CheckQuorum)
    ensures Step(r, LocalMsg(r, k), env) == if env.fails then None else Some(r)
  {
  }

  lemma TimerValue(s: Raft, env: Env)
    requires s.role == Leader && s.step == StepLeader && ElectionTimer(s, env).Some?
    ensures ElectionTimer(s, env).value
         == if s.electionElapsed < s.electionTimeout then s else s.(electionElapsed := 0, transferee := NONE)
  {
    LeaderLocal(s.(electionElapsed := 0), CheckQuorum, env);
  }

  lemma HeartbeatTickGood(r: Raft, env: Env)
    requires Good(r) && r.role == Leader && HeartbeatTick(r, env).Some?
    ensures var s := HeartbeatTick(r, env).value; Good(s) && SameNode(r, s) && Onward(r, s)
  {
    var s := r.(heartbeatElapsed := r.heartbeatElapsed + 1, electionElapsed := r.electionElapsed + 1);
    TimerValue(s, env);
    LeaderLocal(ElectionTimer(s, env).value.(heartbeatElapsed := 0), Beat, env);
  }

  lemma ElectionTickGood(r: Raft, env: Env)
    requires Good(r) && r.role != Leader && ElectionTick(r, env).Some?
    ensures var s := ElectionTick(r, env).value; Good(s) && SameNode(r, s) && Onward(r, s)
  {
    if env.promotable && r.electionElapsed + 1 >= r.randomized {
      StepGood(r.(electionElapsed := 0), LocalMsg(r, Hup), env);
    }
  }

  lemma TickGood(r: Raft, env: Env)
    requires Good(r) && Tick(r, env).Some?
    ensures var s := Tick(r, env).value; Good(s) && SameNode(r, s) && Onward(r, s)
  {
    if r.role == Leader {
      HeartbeatTickGood(r, env);
    } else {
      ElectionTickGood(r, env);
    }
  }

  /** A step takes the node back to an earlier term iff it sends a candidate back. */
  lemma TermFallsIff(r: Raft, m: Msg, env: Env)
    requires Good(r) && Step(r, m, env).Some?
    ensures Step(r, m, env).value.term < r.term <==> SendsBack(r, m)
  {
    StepGood(r, m, env);
  }

  /** For instance: a candidate of term 1 that is sent an unstamped heartbeat is back in term 0. */
  lemma UnstampedHeartbeat(r: Raft, env: Env)
    requires Initial(r) && !env.fails
    ensures var c := BecomeCandidate(r, env).value;
            && Good(c) && c.term == 1
            && Step(c, Msg(Heartbeat, 2, 0, false, false), env).Some?
            && Step(c, Msg(Heartbeat, 2, 0, false, false), env).value.term == 0
  {
  }

  // ---------------------------------------------------------------------------
  // What a step achieves
  // ---------------------------------------------------------------------------

  /** A vote request of a later term, unless a lease holds it off, makes a follower of nobody in that term,
      whose vote it gets iff the candidate's log is up to date; one of the own term, or of none, gets the vote iff
      the log is up to date and no other vote was cast and no leader is known; one of an earlier term nothing.
      The lease is that of a node that checks quorums and has heard from a leader within its timeout, and a
      transfer overrides it. */
  lemma VoteRecorded(r: Raft, m: Msg, env: Env)
    requires Good(r) && m.kind == Vote && Step(r, m, env).Some?
    ensures var s := Step(r, m, env).value;
            var leased := r.checkQuorum && r.lead != NONE && r.electionElapsed < r.electionTimeout && !m.transfer;
            && (m.term > r.term && !leased ==>
                  s.term == m.term && s.role == Follower && s.lead == NONE && s.vote == if env.upToDate then m.from else NONE)
            && (m.term > r.term && leased ==> s == r)
            && (m.term == 0 || m.term == r.term ==>
                  && s.term == r.term && s.role == r.role
                  && s.vote == (if env.upToDate && r.vote == NONE && r.lead == NONE then m.from else r.vote))
            && (0 < m.term < r.term ==> s == r)
  {
  }

  /** Answering a vote request panics exactly for one without a term at a node of term 0, and answering a pre-vote
      request exactly at a node of a later term than 0, unless a lease holds it off. */
  lemma VotePanicsIff(r: Raft, m: Msg, env: Env)
    requires m.kind == Vote || m.kind == PreVote
    ensures m.kind == Vote ==> (Step(r, m, env).None? <==> m.term == 0 && r.term == 0)
    ensures m.kind == PreVote ==>
              (Step(r, m, env).None? <==> r.term > 0 && (m.term > r.term && InLease(r) ==> m.transfer))
  {
  }

  /** The election timer running out panics exactly when the rest of the node does, or, at a node that may
      campaign: with pre-votes, when the first poll is won, the second is not and there are peers to ask; without,
      when there are peers to ask, unless the poll is won, which makes a candidate leader but not a follower. */
  lemma HupPanicsIff(r: Raft, env: Env)
    requires Good(r)
    ensures var o := Step(r, LocalMsg(r, Hup), env);
            var may := r.role != Leader && env.promotable && !env.fails && !env.pendingConf;
            var won := env.poll == Quorum.VoteWon;
            && (o.None? <==>
                  || (r.role != Leader && env.promotable && env.fails)
                  || (may && r.preVote && won && env.pollAgain != Quorum.VoteWon && env.peers)
                  || (may && !r.preVote && if won then r.role == Follower else env.peers))
            && (o.Some? && !r.preVote ==> (o.value.role == Leader <==> r.role == Leader || (may && won)))
  {
  }

  /** A follower panics on forwarding to the leader it knows whatever carries a term. */
  lemma ForwardPanicsIff(r: Raft, m: Msg, env: Env)
    requires Good(r) && r.role == Follower && (m.term == 0 || m.term == r.term) && !env.fails
    requires m.kind == Prop || m.kind == TransferLeader || m.kind == ReadIndex
    ensures Step(r, m, env).None? <==> r.lead != NONE && m.term != 0 && (m.kind == Prop ==> env.forwards)
    ensures Step(r, m, env).Some? ==> Step(r, m, env).value == r
  {
  }

  /** A vote given restarts the election timer. */
  lemma VoteRestartsTimer(r: Raft, m: Msg, env: Env)
    requires Good(r) && m.kind == Vote && Step(r, m, env).Some? && Step(r, m, env).value.vote == m.from != r.vote
    ensures Step(r, m, env).value.electionElapsed == 0
  {
  }

  /** A leader's message of the own or a later term makes every node, except a leader of that very term, a
      follower of its sender in that term, with a fresh election timer, and its vote stands within the term.
      One of an earlier term changes nothing.  One without a term counts as of the own, except that it takes a
      candidate back to term 0. */
  lemma LeaderFollowed(r: Raft, m: Msg, env: Env)
    requires Good(r) && FromLeader(m.kind) && Step(r, m, env).Some?
    ensures var s := Step(r, m, env).value;
            var term := if m.term == 0 && r.role != Candidate then r.term else m.term;
            if (term == r.term && r.role == Leader) || 0 < m.term < r.term then s == r
            else
              && s.role == Follower && s.lead == m.from && s.term == term && s.electionElapsed == 0
              && s.vote == if term == r.term then r.vote else NONE
  {
  }

  /** Whether an event of the own term starts a campaign in a new term: the election timer running out, with
      pre-votes configured, at a node that does not lead, or a leader's word to take over at a follower. */
  predicate Campaigns(r: Raft, k: Kind, env: Env) {
    && env.promotable && !env.pendingConf
    && ((k == Hup && r.preVote && r.role != Leader) || (k == TimeoutNow && r.role == Follower))
  }

  /** Within its term a node moves to the next term iff it campaigns; it has then voted for itself, with fresh
      timers, and leads iff the poll, and for a timeout the second poll, is won. */
  lemma CampaignOutcome(r: Raft, m: Msg, env: Env)
    requires Good(r) && (m.term == 0 || m.term == r.term) && !SendsBack(r, m) && Step(r, m, env).Some?
    ensures var s := Step(r, m, env).value;
            && s.term == (if Campaigns(r, m.kind, env) then r.term + 1 else r.term)
            && (Campaigns(r, m.kind, env) ==>
                  && s.vote == r.id && s.electionElapsed == 0 && s.heartbeatElapsed == 0 && s.randomized == env.randomized
                  && (s.role == Leader <==> env.poll == Quorum.VoteWon && (m.kind == Hup ==> env.pollAgain == Quorum.VoteWon))
                  && (s.role != Leader ==> s.role == Candidate))
  {
  }

  /** A candidate's count of the votes for its term decides its role, and nothing else. */
  lemma VotesDecide(r: Raft, m: Msg, env: Env)
    requires Good(r) && r.role == Candidate && m.kind == VoteResp && (m.term == 0 || m.term == r.term)
    requires Step(r, m, env).Some?
    ensures var s := Step(r, m, env).value;
            && s.term == r.term && s.vote == r.vote
            && (s.role == Leader <==> env.poll == Quorum.VoteWon)
            && (s.role == Follower <==> env.poll == Quorum.VoteLost)
            && (env.poll == Quorum.VotePending ==> s == r)
  {
  }

  /** A node becomes leader only by winning a poll, as a candidate or in a campaign that this step starts. */
  lemma LeaderByPoll(r: Raft, m: Msg, env: Env)
    requires Good(r) && Step(r, m, env).Some? && r.role != Leader && Step(r, m, env).value.role == Leader
    ensures env.poll == Quorum.VoteWon
    ensures m.kind == Hup || m.kind == TimeoutNow || (m.kind == VoteResp && r.role == Candidate && m.term <= r.term)
  {
  }

  /** A leader asked to hand over to a voter it tracks: the transfer to that voter is pending from then on,
      with a fresh timer unless it was pending already; asked to hand over to itself, it drops a pending one.
      No other message of its term touches the transfer. */
  lemma TransferStarts(r: Raft, m: Msg, env: Env)
    requires Good(r) && r.role == Leader && (m.term == 0 || m.term == r.term) && Step(r, m, env).Some?
    ensures var s := Step(r, m, env).value;
            var asked := m.kind == TransferLeader && env.tracked && !env.learner;
            && s.role == Leader
            && s.transferee == (if !asked then r.transferee else if m.from == r.id then NONE else m.from)
            && (asked && m.from != r.id ==>
                  s.electionElapsed == if r.transferee == m.from && m.from != NONE then r.electionElapsed else 0)
  {
  }

  /** One tick of a leader: each timer goes on by one and starts afresh when it is full; a full election timer
      ends a pending transfer. */
  lemma LeaderTick(r: Raft, env: Env)
    requires Good(r) && r.role == Leader && Tick(r, env).Some?
    ensures var s := Tick(r, env).value;
            var full := r.electionElapsed + 1 == r.electionTimeout;
            s == r.(heartbeatElapsed := if r.heartbeatElapsed + 1 < r.heartbeatTimeout then r.heartbeatElapsed + 1 else 0,
                    electionElapsed := if full then 0 else r.electionElapsed + 1,
                    transferee := if full then NONE else r.transferee)
  {
    var t := r.(heartbeatElapsed := r.heartbeatElapsed + 1, electionElapsed := r.electionElapsed + 1);
    TimerValue(t, env);
    LeaderLocal(ElectionTimer(t, env).value.(heartbeatElapsed := 0), Beat, env);
  }

  // ---------------------------------------------------------------------------
  // Whole runs
  // ---------------------------------------------------------------------------

  datatype Event = Receive(msg: Msg, env: Env) | TickNow(env: Env)

  function Next(r: Raft, e: Event): Option<Raft> {
    match e
    case Receive(m, env) => Step(r, m, env)
    case TickNow(env) => Tick(r, env)
  }

  /** The states of a run, one per event, that never panics. */
  ghost predicate Run(states: seq<Raft>, es: seq<Event>) {
    |states| == |es| + 1 && forall k :: 0 <= k < |es| ==> Next(states[k], es[k]) == Some(states[k + 1])
  }

  /** At no point of the run is the node, as a candidate, sent back. */
  ghost predicate NeverSentBack(states: seq<Raft>, es: seq<Event>)
    requires |states| == |es| + 1
  {
    forall k :: 0 <= k < |es| && es[k].Receive? ==> !SendsBack(states[k], es[k].msg)
  }

  lemma NextGood(r: Raft, e: Event)
    requires Good(r) && Next(r, e).Some?
    ensures var s := Next(r, e).value;
            && Good(s) && SameNode(r, s)
            && (Onward(r, s) <==> !(e.Receive? && SendsBack(r, e.msg)))
  {
    match e
    case Receive(m, env) =>
      StepGood(r, m, env);
      TermFallsIff(r, m, env);
    case TickNow(env) => TickGood(r, env);
  }

  lemma {:induction false} GoodThroughout(states: seq<Raft>, es: seq<Event>, k: nat)
    requires Run(states, es) && Good(states[0]) && k <= |es|
    ensures Good(states[k]) && SameNode(states[0], states[k])
  {
    if k > 0 {
      var i := k - 1;
      GoodThroughout(states, es, i);
      assert Next(states[i], es[i]) == Some(states[i + 1]);
      NextGood(states[i], es[i]);
    }
  }

  lemma {:induction false} OnwardThroughout(states: seq<Raft>, es: seq<Event>, i: nat, j: nat)
    requires Run(states, es) && NeverSentBack(states, es) && Good(states[0]) && i <= j <= |es|
    ensures Onward(states[i], states[j])
  {
    if i < j {
      var k := j - 1;
      OnwardThroughout(states, es, i, k);
      GoodThroughout(states, es, k);
      assert Next(states[k], es[k]) == Some(states[k + 1]);
      NextGood(states[k], es[k]);
    }
  }

  /** At every point of a new node's run: a candidate has voted for itself and knows no leader; a leader has
      voted for itself and is its own leader; the installed step and tick functions fit the role; a transfer
      is only ever pending at a leader, towards another node. */
  lemma RolesConsistent(states: seq<Raft>, es: seq<Event>, k: nat)
    requires Run(states, es) && Initial(states[0]) && k <= |es|
    ensures Good(states[k])
  {
    InitialIsGood(states[0]);
    GoodThroughout(states, es, k);
  }

  /** Between any two points of a run from a consistent state the term has not fallen, and if it is the same a
      vote cast stands, iff at no point a candidate is sent back. */
  lemma TermsAndVotesIff(states: seq<Raft>, es: seq<Event>)
    requires Run(states, es) && Good(states[0])
    ensures (forall i, j :: 0 <= i <= j <= |es| ==> Onward(states[i], states[j])) <==> NeverSentBack(states, es)
  {
    if NeverSentBack(states, es) {
      forall i, j | 0 <= i <= j <= |es| ensures Onward(states[i], states[j]) {
        OnwardThroughout(states, es, i, j);
      }
    } else {
      var k :| 0 <= k < |es| && es[k].Receive? && SendsBack(states[k], es[k].msg);
      GoodThroughout(states, es, k);
      assert Next(states[k], es[k]) == Some(states[k + 1]);
      NextGood(states[k], es[k]);
    }
  }

  /** In particular from a new node on. */
  lemma TermsAndVotes(states: seq<Raft>, es: seq<Event>, i: nat, j: nat)
    requires Run(states, es) && NeverSentBack(states, es) && Initial(states[0]) && i <= j <= |es|
    ensures Onward(states[i], states[j])
  {
    InitialIsGood(states[0]);
    OnwardThroughout(states, es, i, j);
  }

  /** Whether a stamped vote request is granted. */
  predicate GetsVote(r: Raft, m: Msg, env: Env) {
    && m.kind == Vote && m.term > 0 && env.upToDate
    && if m.term == r.term then r.vote == m.from || (r.vote == NONE && r.lead == NONE)
       else m.term > r.term && (m.transfer || !InLease(r))
  }

  /** In every run in which the node is never sent back, all the requests it grants in a term come from one
      candidate. */
  lemma VotesOnce(states: seq<Raft>, es: seq<Event>, i: nat, j: nat)
    requires Run(states, es) && NeverSentBack(states, es) && Good(states[0]) && i < j < |es|
    requires es[i].Receive? && GetsVote(states[i], es[i].msg, es[i].env) && es[i].msg.from != NONE
    requires es[j].Receive? && GetsVote(states[j], es[j].msg, es[j].env) && es[j].msg.term == es[i].msg.term
    ensures es[j].msg.from == es[i].msg.from
  {
    GoodThroughout(states, es, i);
    assert Next(states[i], es[i]) == Some(states[i + 1]);
    VoteRecorded(states[i], es[i].msg, es[i].env);
    OnwardThroughout(states, es, i + 1, j);
  }

  // ---------------------------------------------------------------------------
  // Election timeout
  // ---------------------------------------------------------------------------

  /** A node that does not lead, can be promoted, and hears nothing, counts ticks and changes nothing else, until
      its timer is full: then, not before, it raises a timeout with the timer at 0. */
  lemma {:induction false} TimesOut(states: seq<Raft>, es: seq<Event>)
    requires Run(states, es) && Good(states[0]) && states[0].role != Leader
    requires forall k :: 0 <= k < |es| ==> es[k].TickNow? && es[k].env.promotable
    requires states[0].electionElapsed + |es| <= Max(states[0].randomized, states[0].electionElapsed + 1)
    ensures var r := states[0];
            Some(states[|es|]) ==
              if es != [] && r.electionElapsed + |es| >= r.randomized
              then Step(r.(electionElapsed := 0), LocalMsg(r, Hup), es[|es| - 1].env)
              else Some(r.(electionElapsed := r.electionElapsed + |es|))
  {
    if es != [] {
      var n := |es| - 1;
      TimesOut(states[..n + 1], es[..n]);
      assert Next(states[n], es[n]) == Some(states[n + 1]);
    }
  }

  /** So with pre-votes configured it stands for election in the next term exactly when its timer is full. */
  lemma CampaignsInTime(states: seq<Raft>, es: seq<Event>)
    requires Run(states, es) && Good(states[0]) && states[0].role != Leader && states[0].preVote && es != []
    requires forall k :: 0 <= k < |es| ==> es[k].TickNow? && es[k].env.promotable && !es[k].env.pendingConf
    requires states[0].electionElapsed + |es| <= Max(states[0].randomized, states[0].electionElapsed + 1)
    ensures var (r, s) := (states[0], states[|es|]);
            if r.electionElapsed + |es| >= r.randomized
            then s.term == r.term + 1 && s.vote == r.id && (s.role == Candidate || s.role == Leader)
            else s.term == r.term && s.vote == r.vote && s.role == r.role
  {
    var r := states[0];
    TimesOut(states, es);
    if r.electionElapsed + |es| >= r.randomized {
      CampaignOutcome(r.(electionElapsed := 0), LocalMsg(r, Hup), es[|es| - 1].env);
    }
  }

  // ---------------------------------------------------------------------------
  // Leadership transfer
  // ---------------------------------------------------------------------------

  ghost function Ticks(es: seq<Event>): nat {
    if es == [] then 0 else Ticks(es[..|es| - 1]) + if es[|es| - 1].TickNow? then 1 else 0
  }

  /** While a transfer to the same target is pending, ticks move the timer on and messages leave it alone;
      a vote request from the leader itself, which nobody sends, would reset it. */
  lemma PendingStep(r: Raft, e: Event)
    requires Good(r) && r.transferee != NONE && Next(r, e).Some?
    requires e.Receive? && e.msg.kind == Vote ==> e.msg.from != r.id
    requires Next(r, e).value.transferee == r.transferee
    ensures Next(r, e).value.electionElapsed == r.electionElapsed + if e.TickNow? then 1 else 0
  {
  }

  /** A transfer that is neither cleared nor turned to another target has seen fewer than electionTimeout
      ticks since its timer was reset: it cannot stay pending longer. */
  lemma {:induction false} TransferTimesOut(states: seq<Raft>, es: seq<Event>)
    requires Run(states, es) && Good(states[0]) && states[0].transferee != NONE
    requires forall k :: 0 <= k < |es| && es[k].Receive? && es[k].msg.kind == Vote ==> es[k].msg.from != states[0].id
    requires forall k :: 0 <= k <= |es| ==> states[k].transferee == states[0].transferee
    ensures states[|es|].electionElapsed == states[0].electionElapsed + Ticks(es)
    ensures states[0].electionElapsed + Ticks(es) < states[0].electionTimeout
  {
    GoodThroughout(states, es, |es|);
    if es != [] {
      var n := |es| - 1;
      TransferTimesOut(states[..n + 1], es[..n]);
      GoodThroughout(states, es, n);
      PendingStep(states[n], es[n]);
    }
  }

  // ---------------------------------------------------------------------------
  // The mutable node
  // ---------------------------------------------------------------------------

  /** Each method does what the function of the same name says, wherever that does not panic. */
  class Node {
    const id: nat
    const electionTimeout: nat
    const heartbeatTimeout: nat
    const checkQuorum: bool
    const preVote: bool
    var term: nat
    var vote: nat
    var role: Role
    var lead: nat
    var transferee: nat
    var electionElapsed: nat
    var heartbeatElapsed: nat
    var randomized: nat
    var step: StepFunction
    var tick: TickFunction

    ghost function Data(): Raft
      reads this
    {
      Raft(id, term, vote, role, lead, transferee, electionElapsed, heartbeatElapsed, randomized,
           electionTimeout, heartbeatTimeout, checkQuorum, preVote, step, tick)
    }

    constructor (id: nat, electionTimeout: nat, heartbeatTimeout: nat, checkQuorum: bool, preVote: bool, env: Env)
      requires id != NONE && 0 < heartbeatTimeout < electionTimeout
      ensures Initial(Data())
      ensures Data() == Raft(id, 0, NONE, Follower, NONE, NONE, 0, 0, env.randomized,
                             electionTimeout, heartbeatTimeout, checkQuorum, preVote, StepFollower, TickElection)
    {
      this.id, this.electionTimeout, this.heartbeatTimeout := id, electionTimeout, heartbeatTimeout;
      this.checkQuorum, this.preVote := checkQuorum, preVote;
      term, vote, lead, transferee := 0, NONE, NONE, NONE;
      electionElapsed, heartbeatElapsed, randomized := 0, 0, env.randomized;
      role, step, tick := Follower, StepFollower, TickElection;
    }

    method DoReset(to: nat, env: Env)
      modifies this
      ensures Data() == Reset(old(Data()), to, env)
    {
      if term != to {
        term := to;
        vote := NONE;
      }
      lead := NONE;
      electionElapsed := 0;
      heartbeatElapsed := 0;
      randomized := env.randomized;
      transferee := NONE;
    }

    method ToFollower(to: nat, leader: nat, env: Env)
      modifies this
      ensures Data() == BecomeFollower(old(Data()), to, leader, env)
    {
      step := StepFollower;
      DoReset(to, env);
      tick := TickElection;
      lead := leader;
      role := Follower;
    }

    method ToCandidate(env: Env)
      requires BecomeCandidate(Data(), env).Some?
      modifies this
      ensures Some(Data()) == BecomeCandidate(old(Data()), env)
    {
      step := StepCandidate;
      DoReset(term + 1, env);
      tick := TickElection;
      vote := id;
      role := Candidate;
    }

    method ToLeader(env: Env)
      requires BecomeLeader(Data(), env).Some?
      modifies this
      ensures Some(Data()) == BecomeLeader(old(Data()), env)
    {
      step := StepLeader;
      DoReset(term, env);
      tick := TickHeartbeat;
      lead := id;
      role := Leader;
    }

    method Run(t: Campaign, env: Env)
      requires DoCampaign(Data(), t, env).Some?
      modifies this
      ensures Some(Data()) == DoCampaign(old(Data()), t, env)
    {
      var poll := env.poll;
      if t != Election {
        ToCandidate(env);
        if poll != Quorum.VoteWon {
          return;
        }
        if t == Transfer {
          ToLeader(env);
          return;
        }
        poll := env.pollAgain;
      }
      if poll == Quorum.VoteWon {
        ToLeader(env);
      }
    }

    method Hup(t: Campaign, env: Env)
      requires DoHup(Data(), t, env).Some?
      modifies this
      ensures Some(Data()) == DoHup(old(Data()), t, env)
    {
      if role == Leader || !env.promotable || env.pendingConf {
        return;
      }
      Run(t, env);
    }

    method AsLeader(m: Msg, env: Env)
      requires LeaderStep(Data(), m, env).Some?
      modifies this
      ensures Some(Data()) == LeaderStep(old(Data()), m, env)
    {
      if m.kind == TransferLeader && env.tracked {
        if env.learner {
          return;
        }
        if transferee != NONE {
          if transferee == m.from {
            return;
          }
          transferee := NONE;
        }
        if m.from == id {
          return;
        }
        electionElapsed := 0;
        transferee := m.from;
      }
    }

    method AsCandidate(m: Msg, env: Env)
      requires CandidateStep(Data(), m, env).Some?
      modifies this
      ensures Some(Data()) == CandidateStep(old(Data()), m, env)
    {
      var myVoteResp := if role == PreCandidate then PreVoteResp else VoteResp;
      if m.kind == App || m.kind == Heartbeat || m.kind == Snap {
        ToFollower(m.term, m.from, env);
      } else if m.kind == myVoteResp {
        if env.poll == Quorum.VoteWon {
          if role == PreCandidate {
            Run(Election, env);
          } else {
            ToLeader(env);
          }
        } else if env.poll == Quorum.VoteLost {
          ToFollower(term, NONE, env);
        }
      }
    }

    method AsFollower(m: Msg, env: Env)
      requires FollowerStep(Data(), m, env).Some?
      modifies this
      ensures Some(Data()) == FollowerStep(old(Data()), m, env)
    {
      if m.kind == App || m.kind == Heartbeat || m.kind == Snap {
        electionElapsed := 0;
        lead := m.from;
      } else if m.kind == TimeoutNow {
        Hup(Transfer, env);
      }
    }

    method Handle(m: Msg, env: Env)
      requires Dispatch(Data(), m, env).Some?
      modifies this
      ensures Some(Data()) == Dispatch(old(Data()), m, env)
    {
      if m.kind == Kind.Hup {
        Hup(if preVote then PreElection else Election, env);
      } else if m.kind == Vote || m.kind == PreVote {
        var canVote := vote == m.from || (vote == NONE && lead == NONE) || (m.kind == PreVote && m.term > term);
        if canVote && env.upToDate && m.kind == Vote {
          electionElapsed := 0;
          vote := m.from;
        }
      } else {
        match step {
          case StepFollower => AsFollower(m, env);
          case StepCandidate => AsCandidate(m, env);
          case StepLeader => AsLeader(m, env);
        }
      }
    }

    method TakeMessage(m: Msg, env: Env)
      requires Step(Data(), m, env).Some?
      modifies this
      ensures Some(Data()) == Step(old(Data()), m, env)
    {
      if m.term == 0 {
      } else if m.term > term {
        if (m.kind == PreVote || m.kind == Vote) && !m.transfer &&
           checkQuorum && lead != NONE && electionElapsed < electionTimeout {
          return;
        }
        if m.kind == PreVote || (m.kind == PreVoteResp && !m.reject) {
        } else if m.kind == App || m.kind == Heartbeat || m.kind == Snap {
          ToFollower(m.term, m.from, env);
        } else {
          ToFollower(m.term, NONE, env);
        }
      } else if m.term < term {
        return;
      }
      Handle(m, env);
    }

    method CheckElectionTimer(env: Env)
      requires ElectionTimer(Data(), env).Some?
      modifies this
      ensures Some(Data()) == ElectionTimer(old(Data()), env)
    {
      if electionElapsed >= electionTimeout {
        electionElapsed := 0;
        if checkQuorum {
          TakeMessage(Msg(CheckQuorum, id, 0, false, false), env);
        }
        if role == Leader && transferee != NONE {
          transferee := NONE;
        }
      }
    }

    method TakeHeartbeatTick(env: Env)
      requires HeartbeatTick(Data(), env).Some?
      modifies this
      ensures Some(Data()) == HeartbeatTick(old(Data()), env)
    {
      heartbeatElapsed := heartbeatElapsed + 1;
      electionElapsed := electionElapsed + 1;
      CheckElectionTimer(env);
      if role != Leader {
        return;
      }
      if heartbeatElapsed >= heartbeatTimeout {
        heartbeatElapsed := 0;
        TakeMessage(Msg(Beat, id, 0, false, false), env);
      }
    }

    method TakeTick(env: Env)
      requires Tick(Data(), env).Some?
      modifies this
      ensures Some(Data()) == Tick(old(Data()), env)
    {
      if tick == TickElection {
        electionElapsed := electionElapsed + 1;
        if env.promotable && electionElapsed >= randomized {
          electionElapsed := 0;
          TakeMessage(Msg(Kind.Hup, id, 0, false, false), env);
        }
      } else {
        TakeHeartbeatTick(env);
      }
    }
  }
}
