/**
 Majority and joint quorums: vote verdicts and the committed index.  A configuration is a set
 of voters; the order in which the program happens to visit them is a parameter.
 */
module Quorum {
  import opened Basics

  datatype Verdict = VotePending | VoteLost | VoteWon

  type Config = set<nat>
  type Ballots = map<nat, bool>

  ghost function Yes(m: Config, votes: Ballots): set<nat> {
    set id | id in m && id in votes && votes[id]
  }

  ghost function Missing(m: Config, votes: Ballots): set<nat> {
    set id | id in m && id !in votes
  }

  ghost predicate Elects(m: Config, votes: Ballots) {
    m == {} || |Yes(m, votes)| >= |m| / 2 + 1
  }

  ghost function MajorityVerdict(m: Config, votes: Ballots): Verdict {
    var q := |m| / 2 + 1;
    if m == {} || |Yes(m, votes)| >= q then VoteWon
    else if |Yes(m, votes)| + |Missing(m, votes)| >= q then VotePending
    else VoteLost
  }

  lemma YesOne(seen: Config, votes: Ballots, id: nat)
    requires id !in seen
    ensures |Yes(seen + {id}, votes)| == |Yes(seen, votes)| + if id in votes && votes[id] then 1 else 0
  {
    if id in votes && votes[id] {
      assert Yes(seen + {id}, votes) == Yes(seen, votes) + {id};
    } else {
      assert Yes(seen + {id}, votes) == Yes(seen, votes);
    }
  }

  lemma MissingOne(seen: Config, votes: Ballots, id: nat)
    requires id !in seen
    ensures |Missing(seen + {id}, votes)| == |Missing(seen, votes)| + if id !in votes then 1 else 0
  {
    if id !in votes {
      assert Missing(seen + {id}, votes) == Missing(seen, votes) + {id};
    } else {
      assert Missing(seen + {id}, votes) == Missing(seen, votes);
    }
  }

  method CountVotes(m: Config, votes: Ballots) returns (yes: nat, no: nat, missing: nat)
    ensures yes == |Yes(m, votes)| && missing == |Missing(m, votes)|
  {
    yes, no, missing := 0, 0, 0;
    var rest := m;
    while rest != {}
      invariant rest <= m
      invariant yes == |Yes(m - rest, votes)| && missing == |Missing(m - rest, votes)|
      decreases rest
    {
      var id :| id in rest;
      YesOne(m - rest, votes, id);
      MissingOne(m - rest, votes, id);
      assert m - (rest - {id}) == m - rest + {id};
      rest := rest - {id};
      if id !in votes {
        missing := missing + 1;
      } else if votes[id] {
        yes := yes + 1;
      } else {
        no := no + 1;
      }
    }
    assert m - rest == m;
  }

  method VoteResult(m: Config, votes: Ballots) returns (r: Verdict)
    ensures r == MajorityVerdict(m, votes)
  {
    if |m| == 0 {
      return VoteWon;
    }
    var yes, no, missing := CountVotes(m, votes);
    var q := |m| / 2 + 1;
    if yes >= q {
      return VoteWon;
    }
    if yes + missing >= q {
      return VotePending;
    }
    return VoteLost;
  }

  function JointVerdict(r1: Verdict, r2: Verdict): Verdict {
    if r1 == r2 then r1
    else if r1 == VoteLost || r2 == VoteLost then VoteLost
    else VotePending
  }

  method JointVoteResult(c0: Config, c1: Config, votes: Ballots) returns (r: Verdict)
    ensures r == JointVerdict(MajorityVerdict(c0, votes), MajorityVerdict(c1, votes))
  {
    var r1 := VoteResult(c0, votes);
    var r2 := VoteResult(c1, votes);
    r := JointVerdict(r1, r2);
  }

  // ---------------------------------------------------------------------------
  // The verdict is exact
  // ---------------------------------------------------------------------------

  /** `full` is a possible outcome of the vote: it keeps what was cast and everyone has voted. */
  ghost predicate Completes(c0: Config, c1: Config, votes: Ballots, full: Ballots) {
    (forall id :: id in votes ==> id in full && full[id] == votes[id]) && c0 + c1 <= full.Keys
  }

  ghost predicate ElectsBoth(c0: Config, c1: Config, votes: Ballots) {
    Elects(c0, votes) && Elects(c1, votes)
  }

  /** The outcome in which every missing vote is v. */
  ghost function AllMissing(c0: Config, c1: Config, votes: Ballots, v: bool): Ballots {
    map id | id in votes.Keys + c0 + c1 :: if id in votes then votes[id] else v
  }

  /** How one half fares in any outcome, and in the two extreme ones. */
  lemma HalfExact(m: Config, votes: Ballots, full: Ballots)
    requires (forall id :: id in votes ==> id in full && full[id] == votes[id]) && m <= full.Keys
    ensures MajorityVerdict(m, votes) == VoteWon ==> Elects(m, full)
    ensures MajorityVerdict(m, votes) == VoteLost ==> !Elects(m, full)
    ensures (forall id :: id in Missing(m, votes) ==> full[id]) && Elects(m, full)
            ==> MajorityVerdict(m, votes) != VoteLost
    ensures (forall id :: id in Missing(m, votes) ==> full[id]) && MajorityVerdict(m, votes) != VoteLost
            ==> Elects(m, full)
    ensures (forall id :: id in Missing(m, votes) ==> !full[id]) && Elects(m, full)
            ==> MajorityVerdict(m, votes) == VoteWon
  {
    var y, z, f := Yes(m, votes), Missing(m, votes), Yes(m, full);
    SubsetSize(y, f);
    SubsetSize(f, y + z);
    assert |y + z| == |y| + |z|;
    if forall id :: id in z ==> full[id] {
      assert f == y + z;
    }
    if forall id :: id in z ==> !full[id] {
      assert f == y;
    }
  }

  /** Won iff every outcome still possible wins both halves; lost iff none does; pending otherwise. */
  lemma VerdictExact(c0: Config, c1: Config, votes: Ballots)
    ensures var r := JointVerdict(MajorityVerdict(c0, votes), MajorityVerdict(c1, votes));
            && (r == VoteWon <==> forall full :: Completes(c0, c1, votes, full) ==> ElectsBoth(c0, c1, full))
            && (r == VoteLost <==> forall full :: Completes(c0, c1, votes, full) ==> !ElectsBoth(c0, c1, full))
  {
    forall full | Completes(c0, c1, votes, full)
      ensures var r := JointVerdict(MajorityVerdict(c0, votes), MajorityVerdict(c1, votes));
              (r == VoteWon ==> ElectsBoth(c0, c1, full)) && (r == VoteLost ==> !ElectsBoth(c0, c1, full))
    {
      HalfExact(c0, votes, full);
      HalfExact(c1, votes, full);
    }
    var best, worst := AllMissing(c0, c1, votes, true), AllMissing(c0, c1, votes, false);
    assert Completes(c0, c1, votes, best) && Completes(c0, c1, votes, worst);
    HalfExact(c0, votes, best);
    HalfExact(c1, votes, best);
    HalfExact(c0, votes, worst);
    HalfExact(c1, votes, worst);
  }

  /** `RecordVote`: the first vote of an id stands. */
  function RecordVote(votes: Ballots, id: nat, v: bool): Ballots {
    if id in votes then votes else votes[id := v]
  }

  function RecordAll(votes: Ballots, cast: seq<(nat, bool)>): Ballots
    decreases |cast|
  {
    if cast == [] then votes else RecordAll(RecordVote(votes, cast[0].0, cast[0].1), cast[1..])
  }

  lemma {:induction false} RecordsKeep(votes: Ballots, cast: seq<(nat, bool)>, id: nat)
    requires id in votes
    ensures id in RecordAll(votes, cast) && RecordAll(votes, cast)[id] == votes[id]
    decreases |cast|
  {
    if cast != [] {
      RecordsKeep(RecordVote(votes, cast[0].0, cast[0].1), cast[1..], id);
    }
  }

  /** The k-th vote cast is the first of a voter that had not voted. */
  ghost predicate FirstVote(votes: Ballots, cast: seq<(nat, bool)>, k: nat) {
    k < |cast| && cast[k].0 !in votes && forall j :: 0 <= j < k ==> cast[j].0 != cast[k].0
  }

  lemma {:induction false} FirstVoteStands(votes: Ballots, cast: seq<(nat, bool)>, k: nat)
    requires FirstVote(votes, cast, k)
    ensures cast[k].0 in RecordAll(votes, cast) && RecordAll(votes, cast)[cast[k].0] == cast[k].1
    decreases |cast|
  {
    var next := RecordVote(votes, cast[0].0, cast[0].1);
    if k == 0 {
      RecordsKeep(next, cast[1..], cast[0].0);
    } else {
      assert cast[0].0 != cast[k].0;
      assert FirstVote(next, cast[1..], k - 1);
      FirstVoteStands(next, cast[1..], k - 1);
    }
  }

  lemma {:induction false} OnlyVotesCast(votes: Ballots, cast: seq<(nat, bool)>, id: nat)
    requires id in RecordAll(votes, cast) && id !in votes
    ensures exists k :: 0 <= k < |cast| && cast[k].0 == id
    decreases |cast|
  {
    var next := RecordVote(votes, cast[0].0, cast[0].1);
    if id in next {
      assert cast[0].0 == id;
    } else {
      OnlyVotesCast(next, cast[1..], id);
      var k :| 0 <= k < |cast[1..]| && cast[1..][k].0 == id;
      assert cast[k + 1].0 == id;
    }
  }

  /** After any votes have come in, every id has the vote it had, or else the first that came in from it, and
      an id from which none came in has none. */
  lemma RecordsFirst(votes: Ballots, cast: seq<(nat, bool)>, id: nat)
    ensures id in votes ==> id in RecordAll(votes, cast) && RecordAll(votes, cast)[id] == votes[id]
    ensures forall k: nat :: FirstVote(votes, cast, k) && cast[k].0 == id ==>
              id in RecordAll(votes, cast) && RecordAll(votes, cast)[id] == cast[k].1
    ensures id in RecordAll(votes, cast) ==> id in votes || exists k :: 0 <= k < |cast| && cast[k].0 == id
  {
    if id in votes {
      RecordsKeep(votes, cast, id);
    }
    forall k: nat | FirstVote(votes, cast, k) && cast[k].0 == id
      ensures id in RecordAll(votes, cast) && RecordAll(votes, cast)[id] == cast[k].1
    {
      FirstVoteStands(votes, cast, k);
    }
    if id in RecordAll(votes, cast) && id !in votes {
      OnlyVotesCast(votes, cast, id);
    }
  }

  /** A verdict, once reached, survives every later vote. */
  lemma VerdictFinal(c0: Config, c1: Config, votes: Ballots, cast: seq<(nat, bool)>)
    requires JointVerdict(MajorityVerdict(c0, votes), MajorityVerdict(c1, votes)) != VotePending
    ensures var later := RecordAll(votes, cast);
            JointVerdict(MajorityVerdict(c0, later), MajorityVerdict(c1, later))
            == JointVerdict(MajorityVerdict(c0, votes), MajorityVerdict(c1, votes))
  {
    var later := RecordAll(votes, cast);
    forall id | id in votes ensures id in later && later[id] == votes[id] { RecordsKeep(votes, cast, id); }
    VerdictExact(c0, c1, votes);
    VerdictExact(c0, c1, later);
    forall full | Completes(c0, c1, later, full) ensures Completes(c0, c1, votes, full) {}
    var one := AllMissing(c0, c1, later, true);
    assert Completes(c0, c1, later, one);
  }

  /** Two elections won in the same non-empty configuration share a voter who said yes to both. */
  lemma WinnersShareVoter(c0: Config, c1: Config, a: Ballots, b: Ballots) returns (id: nat)
    requires c0 + c1 != {}
    requires JointVerdict(MajorityVerdict(c0, a), MajorityVerdict(c1, a)) == VoteWon
    requires JointVerdict(MajorityVerdict(c0, b), MajorityVerdict(c1, b)) == VoteWon
    ensures id in c0 + c1 && id in a && a[id] && id in b && b[id]
  {
    var m := if c0 != {} then c0 else c1;
    var p, q := Yes(m, a), Yes(m, b);
    SubsetSize(p + q, m);
    assert |p + q| == |p| + |q| - |p * q|;
    assert p * q != {};
    id :| id in p * q;
  }

  // ---------------------------------------------------------------------------
  // The committed index
  // ---------------------------------------------------------------------------

  type Acks = map<nat, nat>

  /** The indexes reported by the voters, in visiting order. */
  function Reported(order: seq<nat>, acks: Acks): (r: seq<nat>)
    ensures |r| <= |order|
  {
    if order == [] then []
    else (if order[0] in acks then [acks[order[0]]] else []) + Reported(order[1..], acks)
  }

  /** The slice the program fills: reports from the back, zeros in front. */
  ghost function Filled(order: seq<nat>, acks: Acks): (r: seq<nat>)
    ensures |r| == |order|
  {
    var rep := Reported(order, acks);
    seq(|order|, p requires 0 <= p < |order| =>
      if p < |order| - |rep| then 0 else rep[|order| - 1 - p])
  }

  function Position(n: nat): nat
    requires n > 0
  {
    n - (n / 2 + 1)
  }

  /** What a half contributes; an empty half stands in nobody's way. */
  ghost function Taken(order: seq<nat>, acks: Acks): nat {
    if order == [] then MAX_UINT64 else Filled(order, acks)[Position(|order|)]
  }

  lemma {:induction false} ReportedSnoc(order: seq<nat>, acks: Acks, k: nat)
    requires k < |order|
    ensures Reported(order[..k + 1], acks)
         == Reported(order[..k], acks) + if order[k] in acks then [acks[order[k]]] else []
  {
    if k > 0 {
      ReportedSnoc(order[1..], acks, k - 1);
      assert order[..k][1..] == order[1..][..k - 1];
      assert order[..k + 1][1..] == order[1..][..k];
    }
  }

  method CommittedIndex(order: seq<nat>, acks: Acks) returns (r: nat)
    ensures r == Taken(order, acks)
  {
    var n := |order|;
    if n == 0 {
      return MAX_UINT64;
    }
    var srt := new nat[n](_ => 0);
    var i := n - 1;
    for k := 0 to n
      invariant |Reported(order[..k], acks)| <= k
      invariant i == n - 1 - |Reported(order[..k], acks)|
      invariant forall p :: 0 <= p <= i ==> srt[p] == 0
      invariant forall p :: i < p < n ==> srt[p] == Reported(order[..k], acks)[n - 1 - p]
    {
      ReportedSnoc(order, acks, k);
      if order[k] in acks {
        srt[i] := acks[order[k]];
        i := i - 1;
      }
    }
    assert order[..n] == order;
    r := srt[Position(n)];
  }

  method JointCommittedIndex(o0: seq<nat>, o1: seq<nat>, acks: Acks) returns (r: nat)
    ensures r == Min(Taken(o0, acks), Taken(o1, acks))
  {
    var a := CommittedIndex(o0, acks);
    var b := CommittedIndex(o1, acks);
    r := if a < b then a else b;
  }

  /** The voters known to have acknowledged index k; a silent voter counts as 0. */
  ghost function AckedBy(m: Config, acks: Acks, k: nat): set<nat> {
    set id | id in m && k <= (if id in acks then acks[id] else 0)
  }

  /** r is the greatest index that a majority acknowledged. */
  ghost predicate IsQuorumIndex(m: Config, acks: Acks, r: nat) {
    |AckedBy(m, acks, r)| >= |m| / 2 + 1 && forall k: nat :: k > r ==> |AckedBy(m, acks, k)| < |m| / 2 + 1
  }

  ghost predicate Visits(order: seq<nat>, m: Config) {
    (forall a, b :: 0 <= a < b < |order| ==> order[a] != order[b]) && (forall id :: id in m <==> id in order)
  }

  ghost predicate Ascending(s: seq<nat>) {
    forall a, b :: 0 <= a < b < |s| ==> s[a] <= s[b]
  }

  function CountAtLeast(s: seq<nat>, k: nat): nat {
    if s == [] then 0 else (if s[0] >= k then 1 else 0) + CountAtLeast(s[1..], k)
  }

  lemma VisitRest(order: seq<nat>, m: Config)
    requires Visits(order, m) && order != []
    ensures Visits(order[1..], m - {order[0]}) && order[0] in m
  {
    forall id | id in m - {order[0]} ensures id in order[1..] {
      assert id in order;
    }
  }

  lemma AckOne(rest: Config, acks: Acks, id: nat, k: nat)
    requires id !in rest && k > 0
    ensures |AckedBy(rest + {id}, acks, k)| == |AckedBy(rest, acks, k)| + if id in acks && acks[id] >= k then 1 else 0
  {
    if id in acks && acks[id] >= k {
      assert AckedBy(rest + {id}, acks, k) == AckedBy(rest, acks, k) + {id};
    } else {
      assert AckedBy(rest + {id}, acks, k) == AckedBy(rest, acks, k);
    }
  }

  lemma {:induction false} VisitCount(order: seq<nat>, m: Config, acks: Acks, k: nat)
    requires Visits(order, m) && k > 0
    ensures |m| == |order| && |AckedBy(m, acks, k)| == CountAtLeast(Reported(order, acks), k)
  {
    if order == [] {
      assert m == {} && AckedBy(m, acks, k) == {};
    } else {
      var id := order[0];
      var rest := m - {id};
      VisitRest(order, m);
      VisitCount(order[1..], rest, acks, k);
      assert m == rest + {id};
      AckOne(rest, acks, id, k);
      var rep := Reported(order[1..], acks);
      if id in acks {
        assert Reported(order, acks)[1..] == rep;
      } else {
        assert Reported(order, acks) == rep;
      }
    }
  }

  /** Of a list split at c, with everything before c below k and everything from c on at least k. */
  lemma {:induction false} CountBounds(s: seq<nat>, k: nat, c: nat)
    requires c <= |s|
    ensures (forall a :: c <= a < |s| ==> s[a] < k) ==> CountAtLeast(s, k) <= c
    ensures (forall a :: 0 <= a < c ==> s[a] >= k) ==> CountAtLeast(s, k) >= c
    ensures CountAtLeast(s, k) <= |s|
  {
    if s != [] {
      var t := s[1..];
      CountBounds(t, k, if c > 0 then c - 1 else 0);
      if forall a :: c <= a < |s| ==> s[a] < k {
        assert forall a :: (if c > 0 then c - 1 else 0) <= a < |t| ==> t[a] == s[a + 1];
      }
      if forall a :: 0 <= a < c ==> s[a] >= k {
        assert forall a :: 0 <= a < c - 1 ==> t[a] == s[a + 1];
      }
    }
  }

  /** In an ascending slice the reports come in descending order. */
  lemma ReportsDescend(order: seq<nat>, acks: Acks, a: nat, b: nat)
    requires Ascending(Filled(order, acks)) && a <= b < |Reported(order, acks)|
    ensures Reported(order, acks)[b] <= Reported(order, acks)[a]
  {
    var f, n := Filled(order, acks), |order|;
    assert f[n - 1 - a] == Reported(order, acks)[a] && f[n - 1 - b] == Reported(order, acks)[b];
  }

  lemma AscendingCounts(order: seq<nat>, acks: Acks, k: nat)
    requires order != [] && Ascending(Filled(order, acks)) && k > 0
    ensures k <= Taken(order, acks)
            <==> CountAtLeast(Reported(order, acks), k) >= |order| / 2 + 1
  {
    var rep, q := Reported(order, acks), |order| / 2 + 1;
    var taken := if q <= |rep| then rep[q - 1] else 0;
    assert Taken(order, acks) == taken;
    if k <= taken {
      forall a | 0 <= a < q ensures rep[a] >= k { ReportsDescend(order, acks, a, q - 1); }
      CountBounds(rep, k, q);
    } else if q <= |rep| {
      forall a | q - 1 <= a < |rep| ensures rep[a] < k { ReportsDescend(order, acks, q - 1, a); }
      CountBounds(rep, k, q - 1);
    } else {
      CountBounds(rep, k, |rep|);
    }
  }

  /** If the filled slice happens to be ascending, the element taken is the quorum index. */
  lemma AscendingIsQuorumIndex(order: seq<nat>, m: Config, acks: Acks)
    requires Visits(order, m) && m != {} && Ascending(Filled(order, acks))
    ensures order != [] && IsQuorumIndex(m, acks, Taken(order, acks))
  {
    VisitCount(order, m, acks, 1);
    var r := Taken(order, acks);
    if r == 0 {
      assert AckedBy(m, acks, 0) == m;
    } else {
      VisitCount(order, m, acks, r);
      AscendingCounts(order, acks, r);
    }
    forall k: nat | k > r ensures |AckedBy(m, acks, k)| < |m| / 2 + 1 {
      VisitCount(order, m, acks, k);
      AscendingCounts(order, acks, k);
    }
  }

  /** A majority of the half acknowledged k; an empty half lets every representable index pass. */
  ghost predicate Acknowledged(m: Config, acks: Acks, k: nat) {
    if m == {} then k <= MAX_UINT64 else |AckedBy(m, acks, k)| >= |m| / 2 + 1
  }

  /** r is the greatest index that both halves let pass. */
  ghost predicate IsJointIndex(c0: Config, c1: Config, acks: Acks, r: nat) {
    forall k: nat :: k <= r <==> Acknowledged(c0, acks, k) && Acknowledged(c1, acks, k)
  }

  /** The value that a half should contribute. */
  ghost predicate IsHalfIndex(m: Config, acks: Acks, r: nat) {
    if m == {} then r == MAX_UINT64 else IsQuorumIndex(m, acks, r)
  }

  lemma HalfPasses(m: Config, acks: Acks, r: nat, k: nat)
    requires IsHalfIndex(m, acks, r)
    ensures k <= r <==> Acknowledged(m, acks, k)
  {
    if m != {} && k <= r {
      SubsetSize(AckedBy(m, acks, r), AckedBy(m, acks, k));
    }
  }

  lemma HalvesMakeJoint(c0: Config, c1: Config, acks: Acks, a: nat, b: nat)
    requires IsHalfIndex(c0, acks, a) && IsHalfIndex(c1, acks, b)
    ensures IsJointIndex(c0, c1, acks, Min(a, b))
  {
    forall k: nat ensures k <= Min(a, b) <==> Acknowledged(c0, acks, k) && Acknowledged(c1, acks, k) {
      HalfPasses(c0, acks, a, k);
      HalfPasses(c1, acks, b, k);
    }
  }

  lemma JointIndexUnique(c0: Config, c1: Config, acks: Acks, r: nat, r': nat)
    requires IsJointIndex(c0, c1, acks, r) && IsJointIndex(c0, c1, acks, r')
    ensures r == r'
  {
    assert r <= r && Acknowledged(c0, acks, r) && Acknowledged(c1, acks, r);
    assert r' <= r' && Acknowledged(c0, acks, r') && Acknowledged(c1, acks, r');
  }

  lemma AscendingIsHalfIndex(order: seq<nat>, m: Config, acks: Acks)
    requires Visits(order, m) && Ascending(Filled(order, acks))
    ensures IsHalfIndex(m, acks, Taken(order, acks))
  {
    VisitCount(order, m, acks, 1);
    if m != {} {
      AscendingIsQuorumIndex(order, m, acks);
    }
  }

  /** If both slices happen to be ascending, the joint index is the greatest that both halves let pass. */
  lemma JointIndexIsGreatest(o0: seq<nat>, c0: Config, o1: seq<nat>, c1: Config, acks: Acks)
    requires Visits(o0, c0) && Ascending(Filled(o0, acks))
    requires Visits(o1, c1) && Ascending(Filled(o1, acks))
    ensures IsJointIndex(c0, c1, acks, Min(Taken(o0, acks), Taken(o1, acks)))
  {
    AscendingIsHalfIndex(o0, c0, acks);
    AscendingIsHalfIndex(o1, c1, acks);
    HalvesMakeJoint(c0, c1, acks, Taken(o0, acks), Taken(o1, acks));
  }

  // The slice is never sorted, so what is taken depends on the visiting order.

  ghost function Heard(m: Config, acks: Acks): set<nat> {
    set id | id in m && id in acks
  }

  /** Too few voters reported to matter, or all that reported said the same. */
  ghost predicate OrderImmaterial(m: Config, acks: Acks) {
    || |Heard(m, acks)| < |m| / 2 + 1
    || forall a, b :: a in Heard(m, acks) && b in Heard(m, acks) ==> acks[a] == acks[b]
  }

  ghost predicate AlwaysRight(m: Config, acks: Acks) {
    forall order :: Visits(order, m) && order != [] ==>
      IsQuorumIndex(m, acks, Taken(order, acks))
  }

  lemma {:induction false} ReportedFrom(order: seq<nat>, acks: Acks, x: nat)
    requires x in Reported(order, acks)
    ensures exists id :: id in order && id in acks && acks[id] == x
  {
    if order[0] in acks && acks[order[0]] == x {
    } else {
      assert x in Reported(order[1..], acks);
      ReportedFrom(order[1..], acks, x);
    }
  }

  lemma HeardOne(rest: Config, acks: Acks, id: nat)
    requires id !in rest
    ensures |Heard(rest + {id}, acks)| == |Heard(rest, acks)| + if id in acks then 1 else 0
  {
    if id in acks {
      assert Heard(rest + {id}, acks) == Heard(rest, acks) + {id};
    } else {
      assert Heard(rest + {id}, acks) == Heard(rest, acks);
    }
  }

  lemma {:induction false} HeardCount(order: seq<nat>, m: Config, acks: Acks)
    requires Visits(order, m)
    ensures |m| == |order| && |Reported(order, acks)| == |Heard(m, acks)|
  {
    if order == [] {
      assert m == {} && Heard(m, acks) == {};
    } else {
      VisitRest(order, m);
      HeardCount(order[1..], m - {order[0]}, acks);
      HeardOne(m - {order[0]}, acks, order[0]);
      assert m - {order[0]} + {order[0]} == m;
    }
  }

  lemma ImmaterialIsRight(order: seq<nat>, m: Config, acks: Acks)
    requires Visits(order, m) && order != [] && OrderImmaterial(m, acks)
    ensures IsQuorumIndex(m, acks, Taken(order, acks))
  {
    HeardCount(order, m, acks);
    var f, rep, n := Filled(order, acks), Reported(order, acks), |order|;
    var r := f[Position(n)];
    var heard := Heard(m, acks);
    if |heard| < n / 2 + 1 {
      assert r == 0 && AckedBy(m, acks, 0) == m;
      forall k: nat | k > 0 ensures |AckedBy(m, acks, k)| < n / 2 + 1 {
        SubsetSize(AckedBy(m, acks, k), heard);
      }
    } else {
      assert r in rep;
      ReportedFrom(order, acks, r);
      var who :| who in order && who in acks && acks[who] == r;
      assert who in heard;
      SubsetSize(heard, AckedBy(m, acks, r));
      forall k: nat | k > r ensures |AckedBy(m, acks, k)| < n / 2 + 1 {
        assert AckedBy(m, acks, k) == {};
      }
    }
  }

  lemma VisitsAppend(a: seq<nat>, p: Config, b: seq<nat>, q: Config)
    requires Visits(a, p) && Visits(b, q) && p !! q
    ensures Visits(a + b, p + q)
  {
    forall i | 0 <= i < |a| ensures a[i] in p && a[i] !in q {}
    forall i | 0 <= i < |b| ensures b[i] in q {}
  }

  lemma VisitsSwap(s: seq<nat>, p: Config, i: nat, j: nat) returns (t: seq<nat>)
    requires Visits(s, p) && i < |s| && j < |s|
    ensures Visits(t, p) && |t| == |s| && t[j] == s[i]
  {
    t := s[i := s[j]][j := s[i]];
    forall id | id in s ensures id in t {
      var k :| 0 <= k < |s| && s[k] == id;
      assert t[if k == i then j else if k == j then i else k] == id;
    }
  }

  lemma {:induction false} SomeOrder(m: Config) returns (order: seq<nat>)
    ensures Visits(order, m) && |order| == |m|
  {
    if m == {} {
      order := [];
    } else {
      var id :| id in m;
      order := SomeOrder(m - {id});
      VisitsAppend(order, m - {id}, [id], {id});
      assert m - {id} + {id} == m;
      order := order + [id];
    }
  }

  lemma {:induction false} AllReported(order: seq<nat>, acks: Acks, quiet: seq<nat>)
    requires forall id :: id in order ==> id in acks
    requires forall id :: id in quiet ==> id !in acks
    ensures |Reported(order + quiet, acks)| == |order|
    ensures forall p :: 0 <= p < |order| ==> Reported(order + quiet, acks)[p] == acks[order[p]]
  {
    if order != [] {
      assert (order + quiet)[1..] == order[1..] + quiet;
      AllReported(order[1..], acks, quiet);
    } else if quiet != [] {
      assert (order + quiet)[1..] == order + quiet[1..];
      AllReported(order, acks, quiet[1..]);
    }
  }

  lemma TakenFromLoud(m: Config, loud: seq<nat>, quiet: seq<nat>, acks: Acks)
    requires Visits(loud + quiet, m) && |loud| > |m| / 2
    requires (forall id :: id in loud ==> id in acks) && (forall id :: id in quiet ==> id !in acks)
    ensures var order := loud + quiet;
            |order| == |m| && Taken(order, acks) == acks[loud[|m| / 2]]
  {
    AllReported(loud, acks, quiet);
    VisitCount(loud + quiet, m, acks, 1);
  }

  /** Any voter that reported can be the one the program takes. */
  lemma AnyCanBeTaken(m: Config, acks: Acks, who: nat) returns (order: seq<nat>)
    requires who in Heard(m, acks) && |Heard(m, acks)| >= |m| / 2 + 1
    ensures Visits(order, m) && order != [] && Taken(order, acks) == acks[who]
  {
    var heard := Heard(m, acks);
    var loud := SomeOrder(heard);
    var at :| 0 <= at < |loud| && loud[at] == who;
    loud := VisitsSwap(loud, heard, at, |m| / 2);
    var quiet := SomeOrder(m - heard);
    VisitsAppend(loud, heard, quiet, m - heard);
    assert heard + (m - heard) == m;
    order := loud + quiet;
    TakenFromLoud(m, loud, quiet, acks);
  }

  /** The committed index is right for every visiting order iff the order could not matter. */
  lemma CommittedIndexRightIff(m: Config, acks: Acks)
    ensures AlwaysRight(m, acks) <==> OrderImmaterial(m, acks)
  {
    if OrderImmaterial(m, acks) {
      forall order | Visits(order, m) && order != []
        ensures IsQuorumIndex(m, acks, Taken(order, acks))
      {
        ImmaterialIsRight(order, m, acks);
      }
    } else {
      var a, b :| a in Heard(m, acks) && b in Heard(m, acks) && acks[a] != acks[b];
      var p := AnyCanBeTaken(m, acks, a);
      var q := AnyCanBeTaken(m, acks, b);
    }
  }

  // The same for the joint index, where the halves can make up for each other.

  /** The values that some visiting order takes from a half. */
  ghost predicate Takeable(m: Config, acks: Acks, v: nat) {
    if m == {} then v == MAX_UINT64
    else if |Heard(m, acks)| < |m| / 2 + 1 then v == 0
    else exists id :: id in Heard(m, acks) && acks[id] == v
  }

  ghost predicate JointTakeable(c0: Config, c1: Config, acks: Acks, r: nat) {
    exists a, b :: Takeable(c0, acks, a) && Takeable(c1, acks, b) && r == Min(a, b)
  }

  /** Whatever is taken from the two halves, the smaller of the two is the same. */
  ghost predicate JointImmaterial(c0: Config, c1: Config, acks: Acks) {
    forall r, r' :: JointTakeable(c0, c1, acks, r) && JointTakeable(c0, c1, acks, r') ==> r == r'
  }

  ghost predicate JointAlwaysRight(c0: Config, c1: Config, acks: Acks) {
    forall o0, o1 :: Visits(o0, c0) && Visits(o1, c1) ==>
      IsJointIndex(c0, c1, acks, Min(Taken(o0, acks), Taken(o1, acks)))
  }

  lemma TakenIsTakeable(order: seq<nat>, m: Config, acks: Acks)
    requires Visits(order, m)
    ensures Takeable(m, acks, Taken(order, acks))
  {
    HeardCount(order, m, acks);
    if m != {} && |Heard(m, acks)| >= |m| / 2 + 1 {
      var r := Taken(order, acks);
      assert r in Reported(order, acks);
      ReportedFrom(order, acks, r);
      var who :| who in order && who in acks && acks[who] == r;
      assert who in Heard(m, acks);
    }
  }

  lemma TakeableIsTaken(m: Config, acks: Acks, v: nat) returns (order: seq<nat>)
    requires Takeable(m, acks, v)
    ensures Visits(order, m) && Taken(order, acks) == v
  {
    if m != {} && |Heard(m, acks)| >= |m| / 2 + 1 {
      var id :| id in Heard(m, acks) && acks[id] == v;
      order := AnyCanBeTaken(m, acks, id);
    } else {
      order := SomeOrder(m);
      HeardCount(order, m, acks);
    }
  }

  lemma {:induction false} AcksBounded(m: Config, acks: Acks) returns (k: nat)
    ensures forall id :: id in m && id in acks ==> acks[id] < k
  {
    if m == {} {
      k := 0;
    } else {
      var id :| id in m;
      k := AcksBounded(m - {id}, acks);
      if id in acks && acks[id] >= k {
        k := acks[id] + 1;
      }
    }
  }

  /** Going down from an index that too few acknowledged. */
  lemma {:induction false} QuorumIndexBelow(m: Config, acks: Acks, k: nat) returns (r: nat)
    requires m != {} && forall j: nat :: j >= k ==> |AckedBy(m, acks, j)| < |m| / 2 + 1
    ensures IsQuorumIndex(m, acks, r)
  {
    assert AckedBy(m, acks, 0) == m;
    if |AckedBy(m, acks, k - 1)| >= |m| / 2 + 1 {
      r := k - 1;
    } else {
      r := QuorumIndexBelow(m, acks, k - 1);
    }
  }

  /** The greatest index that a majority acknowledged was reported by one of them. */
  lemma QuorumIndexTakeable(m: Config, acks: Acks, r: nat)
    requires m != {} && IsQuorumIndex(m, acks, r)
    ensures Takeable(m, acks, r)
  {
    var heard := Heard(m, acks);
    if |heard| < |m| / 2 + 1 {
      if r > 0 {
        SubsetSize(AckedBy(m, acks, r), heard);
      }
    } else if forall id :: id in heard ==> acks[id] != r {
      if r > 0 {
        SubsetSize(AckedBy(m, acks, r), AckedBy(m, acks, r + 1));
      } else {
        SubsetSize(heard, AckedBy(m, acks, 1));
      }
      assert false;
    }
  }

  lemma HalfIndexTakeable(m: Config, acks: Acks) returns (r: nat)
    ensures IsHalfIndex(m, acks, r) && Takeable(m, acks, r)
  {
    if m == {} {
      r := MAX_UINT64;
    } else {
      var k := AcksBounded(m, acks);
      forall j: nat | j >= k + 1 ensures |AckedBy(m, acks, j)| < |m| / 2 + 1 {
        assert AckedBy(m, acks, j) == {};
      }
      r := QuorumIndexBelow(m, acks, k + 1);
      QuorumIndexTakeable(m, acks, r);
    }
  }

  lemma JointTakeableIsTaken(c0: Config, c1: Config, acks: Acks, r: nat)
    requires JointAlwaysRight(c0, c1, acks) && JointTakeable(c0, c1, acks, r)
    ensures IsJointIndex(c0, c1, acks, r)
  {
    var a, b :| Takeable(c0, acks, a) && Takeable(c1, acks, b) && r == Min(a, b);
    var o0 := TakeableIsTaken(c0, acks, a);
    var o1 := TakeableIsTaken(c1, acks, b);
  }

  /** The joint index is right for every pair of visiting orders iff no choice of reports changes the
      smaller of the two halves. */
  lemma JointIndexRightIff(c0: Config, c1: Config, acks: Acks)
    ensures JointAlwaysRight(c0, c1, acks) <==> JointImmaterial(c0, c1, acks)
  {
    if JointImmaterial(c0, c1, acks) {
      var a := HalfIndexTakeable(c0, acks);
      var b := HalfIndexTakeable(c1, acks);
      HalvesMakeJoint(c0, c1, acks, a, b);
      assert JointTakeable(c0, c1, acks, Min(a, b));
      forall o0, o1 | Visits(o0, c0) && Visits(o1, c1)
        ensures IsJointIndex(c0, c1, acks, Min(Taken(o0, acks), Taken(o1, acks)))
      {
        TakenIsTakeable(o0, c0, acks);
        TakenIsTakeable(o1, c1, acks);
        assert JointTakeable(c0, c1, acks, Min(Taken(o0, acks), Taken(o1, acks)));
      }
    }
    if JointAlwaysRight(c0, c1, acks) {
      forall r, r' | JointTakeable(c0, c1, acks, r) && JointTakeable(c0, c1, acks, r') ensures r == r' {
        JointTakeableIsTaken(c0, c1, acks, r);
        JointTakeableIsTaken(c0, c1, acks, r');
        JointIndexUnique(c0, c1, acks, r, r');
      }
    }
  }

  /** Two voters, one ahead of the other: some visiting order takes the index that only one of them reached. */
  lemma WrongIndexExample()
    ensures !AlwaysRight({1, 2}, map[1 := 5, 2 := 9])
  {
    var m, acks: Acks := {1, 2}, map[1 := 5, 2 := 9];
    assert Heard(m, acks) == {1, 2};
    CommittedIndexRightIff(m, acks);
    assert acks[1] != acks[2];
  }
}
