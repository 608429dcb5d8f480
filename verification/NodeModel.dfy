/**
 One node of the `node/` package: its record, and what each RPC handler and each
 bookkeeping routine does to that record.  The handlers are given as functions on
 values, so that the cluster model can use them, and as methods of the mutable
 class `Node`, each proved to do what its function says.
 */
module NodeModel {
  import opened Basics

  datatype Role = Follower | Candidate | Leader

  datatype Item = Item(index: nat, term: nat, log: string)

  /** The leader's record of one peer.  `peer` is the configuration position it dials. */
  datatype WorkNode = WorkNode(peer: nat, acceptIndex: nat, commitIndex: nat)

  datatype NodeData = NodeData(
    id: nat, term: nat, leader: Option<nat>, role: Role, oath: nat, config: nat,
    others: seq<WorkNode>, items: seq<Item>, commitIndex: nat, acceptIndex: nat)

  datatype ElectionRequest = ElectionRequest(from: nat, term: nat, index: nat)
  datatype ElectionReply = ElectionReply(accept: bool, term: nat, index: nat)
  datatype HeartRequest = HeartRequest(from: nat, term: nat, commit: nat)
  datatype AppendRequest = AppendRequest(from: nat, entry: Item, preIndex: nat, preTerm: nat, commit: nat)
  datatype AppendReply = AppendReply(accept: bool, appendIndex: nat, commitIndex: nat)

  const ZERO_ITEM := Item(0, 0, "")

  function Tail(items: seq<Item>): Item {
    if items == [] then ZERO_ITEM else items[|items| - 1]
  }

  /** The position of the first item carrying `index`, or the length if there is none. */
  function PositionOf(items: seq<Item>, index: nat): (p: nat)
    ensures p <= |items|
    ensures forall q :: 0 <= q < p ==> items[q].index != index
    ensures p < |items| ==> items[p].index == index
  {
    if items == [] || items[0].index == index then 0 else 1 + PositionOf(items[1..], index)
  }

  function PreItem(items: seq<Item>, index: nat): Item {
    var p := PositionOf(items, index);
    if p == 0 then ZERO_ITEM else items[p - 1]
  }

  function HandleElection(n: NodeData, m: ElectionRequest): (NodeData, ElectionReply) {
    if n.term < m.term && Tail(n.items).index <= m.index then
      (n.(term := m.term, leader := Some(m.from), role := Follower), ElectionReply(true, m.term, n.id))
    else
      (n, ElectionReply(false, n.term, n.id))
  }

  /** The reply carries the new commit index, or 0 if the heartbeat committed nothing. */
  function HandleHeart(n: NodeData, m: HeartRequest): (NodeData, nat) {
    var n1 := if m.term >= n.term then n.(term := m.term, leader := Some(m.from), role := Follower) else n;
    if m.commit == n.commitIndex + 1 && Tail(n.items).index > n.commitIndex
    then (n1.(commitIndex := n.commitIndex + 1), n.commitIndex + 1) else (n1, 0)
  }

  /** The test of an Append request against the receiver's tail. */
  predicate Fits(items: seq<Item>, m: AppendRequest) {
    var tail := Tail(items);
    tail.term == m.preTerm && tail.index == m.preIndex && tail.index + 1 == m.entry.index
  }

  /** `stored` is the outcome of the database write; a failed write is answered with an error. */
  function HandleAppend(n: NodeData, m: AppendRequest, stored: bool): (NodeData, Option<AppendReply>) {
    var tail := Tail(n.items);
    if !Fits(n.items, m) then
      (n, Some(AppendReply(false, tail.index, n.commitIndex)))
    else if !stored then
      (n, None)
    else
      var role := if n.id != m.from then Follower else n.role;
      var commit := if m.commit == n.commitIndex + 1 && tail.index > n.commitIndex
                    then n.commitIndex + 1 else n.commitIndex;
      (n.(items := n.items + [m.entry], term := m.entry.term, role := role, commitIndex := commit),
       Some(AppendReply(true, m.entry.index, commit)))
  }

  function RecordedAccepts(others: seq<WorkNode>): (r: seq<nat>)
    ensures |r| == |others| && forall w :: 0 <= w < |others| ==> r[w] == others[w].acceptIndex
  {
    seq(|others|, w requires 0 <= w < |others| => others[w].acceptIndex)
  }

  function RecordedCommits(others: seq<WorkNode>): (r: seq<nat>)
    ensures |r| == |others| && forall w :: 0 <= w < |others| ==> r[w] == others[w].commitIndex
  {
    seq(|others|, w requires 0 <= w < |others| => others[w].commitIndex)
  }

  function CountAbove(xs: seq<nat>, above: nat): nat {
    if xs == [] then 0 else (if xs[0] > above then 1 else 0) + CountAbove(xs[1..], above)
  }

  function CheckAccept(n: NodeData): NodeData {
    if 2 * CountAbove(RecordedAccepts(n.others), n.acceptIndex) > |n.others| + 1
    then n.(acceptIndex := n.acceptIndex + 1) else n
  }

  function CheckCommit(n: NodeData): NodeData {
    if 2 * CountAbove(RecordedCommits(n.others), n.commitIndex) > |n.others| + 1
    then n.(commitIndex := n.commitIndex + 1) else n
  }

  /** The accept branch of the sender: record what the peer holds, then look for majorities. */
  function CollectAccept(n: NodeData, w: nat, r: AppendReply): NodeData
    requires w < |n.others|
  {
    var others := n.others[w := n.others[w].(acceptIndex := r.appendIndex, commitIndex := r.commitIndex)];
    CheckCommit(CheckAccept(n.(others := others)))
  }

  /** `election()` before it asks anyone: a vote for itself, and a new term. */
  function BeginCampaign(n: NodeData): NodeData {
    n.(oath := 1, term := n.term + 1)
  }

  function OnElectReply(n: NodeData, r: ElectionReply): NodeData {
    if r.accept then n.(oath := n.oath + 1)
    else if r.term > n.term || (r.term == n.term && r.index > n.id) then n.(role := Follower)
    else n
  }

  predicate HasMajority(n: NodeData) {
    n.oath * 2 > n.config
  }

  /** `election()` after every call has returned. */
  function EndCampaign(n: NodeData): NodeData {
    if HasMajority(n) then n.(role := Leader) else n
  }

  /** The commit index a sender offers a peer: one past what the peer committed, if it accepted more. */
  function Offer(w: WorkNode): nat {
    if w.commitIndex < w.acceptIndex then w.commitIndex + 1 else 0
  }

  /** The request by which an item of the list is sent to a peer, naming the item before it. */
  function AppendOf(n: NodeData, w: WorkNode, item: Item): AppendRequest {
    var pre := PreItem(n.items, item.index);
    AppendRequest(n.id, item, pre.index, pre.term, Offer(w))
  }

  /** The request by which a node appends a client's value to its own list. */
  function OwnAppend(n: NodeData, term: nat, value: string): AppendRequest {
    var tail := Tail(n.items);
    AppendRequest(n.id, Item(tail.index + 1, term, value), tail.index, tail.term, 0)
  }

  lemma {:induction false} CountAboveSnoc(xs: seq<nat>, above: nat, k: nat)
    requires k < |xs|
    ensures CountAbove(xs[..k + 1], above) == CountAbove(xs[..k], above) + if xs[k] > above then 1 else 0
  {
    if k > 0 {
      CountAboveSnoc(xs[1..], above, k - 1);
      assert xs[..k][1..] == xs[1..][..k - 1];
      assert xs[..k + 1][1..] == xs[1..][..k];
    }
  }

  ghost function Beyond(xs: seq<nat>, above: nat): set<nat> {
    set w | 0 <= w < |xs| && xs[w] > above
  }

  lemma {:induction false} CountAboveSize(xs: seq<nat>, above: nat)
    ensures CountAbove(xs, above) == |Beyond(xs, above)|
  {
    if xs == [] {
      assert Beyond(xs, above) == {};
    } else {
      var k := |xs| - 1;
      CountAboveSize(xs[..k], above);
      CountAboveSnoc(xs, above, k);
      assert xs[..k + 1] == xs;
      assert Beyond(xs, above) == Beyond(xs[..k], above) + if xs[k] > above then {k} else {};
    }
  }

  /** A heartbeat's reply names the commit index exactly when the heartbeat moved it. */
  lemma HeartReplyExact(n: NodeData, m: HeartRequest)
    ensures var (n', reply) := HandleHeart(n, m);
            reply == if n'.commitIndex > n.commitIndex then n'.commitIndex else 0
  {
  }

  /** An append's reply tells where the receiver then stands; a failed write is an error that changes nothing, and
      so does a refusal. */
  lemma AppendReplyExact(n: NodeData, m: AppendRequest, stored: bool)
    ensures var (n', reply) := HandleAppend(n, m, stored);
            && (reply.None? <==> Fits(n.items, m) && !stored)
            && (reply.Some? ==>
                  && (reply.value.accept <==> n'.items != n.items)
                  && reply.value == AppendReply(reply.value.accept, Tail(n'.items).index, n'.commitIndex))
            && (n'.items == n.items ==> n' == n)
  {
  }

  /** The rows that record more than the given accept index. */
  ghost function AcceptedBeyond(others: seq<WorkNode>, index: nat): set<nat> {
    set w | 0 <= w < |others| && others[w].acceptIndex > index
  }

  ghost function CommittedBeyond(others: seq<WorkNode>, index: nat): set<nat> {
    set w | 0 <= w < |others| && others[w].commitIndex > index
  }

  /** The accept index goes up by one exactly when the peers recorded beyond it, without the node itself,
      are more than half of the cluster. */
  lemma CheckAcceptExact(n: NodeData)
    ensures CheckAccept(n) == n.(acceptIndex := n.acceptIndex +
              if 2 * |AcceptedBeyond(n.others, n.acceptIndex)| > |n.others| + 1 then 1 else 0)
  {
    var xs := RecordedAccepts(n.others);
    CountAboveSize(xs, n.acceptIndex);
    assert Beyond(xs, n.acceptIndex) == AcceptedBeyond(n.others, n.acceptIndex);
  }

  /** So does the commit index. */
  lemma CheckCommitExact(n: NodeData)
    ensures CheckCommit(n) == n.(commitIndex := n.commitIndex +
              if 2 * |CommittedBeyond(n.others, n.commitIndex)| > |n.others| + 1 then 1 else 0)
  {
    var xs := RecordedCommits(n.others);
    CountAboveSize(xs, n.commitIndex);
    assert Beyond(xs, n.commitIndex) == CommittedBeyond(n.others, n.commitIndex);
  }

  /** Taking in an accept: the row holds what the peer reported, and each index is looked at by itself. */
  lemma CollectExact(n: NodeData, w: nat, r: AppendReply)
    requires w < |n.others|
    ensures var others := n.others[w := WorkNode(n.others[w].peer, r.appendIndex, r.commitIndex)];
            CollectAccept(n, w, r) == n.(others := others,
              acceptIndex := n.acceptIndex + (if 2 * |AcceptedBeyond(others, n.acceptIndex)| > |others| + 1 then 1 else 0),
              commitIndex := n.commitIndex + (if 2 * |CommittedBeyond(others, n.commitIndex)| > |others| + 1 then 1 else 0))
  {
    var m := n.(others := n.others[w := n.others[w].(acceptIndex := r.appendIndex, commitIndex := r.commitIndex)]);
    CheckAcceptExact(m);
    CheckCommitExact(CheckAccept(m));
  }

  function OthersUpTo(index: nat, n: nat): seq<WorkNode> {
    if n == 0 then []
    else OthersUpTo(index, n - 1) + if n - 1 == index then [] else [WorkNode(n - 1, 0, 0)]
  }

  function Created(nodes: nat, index: nat): NodeData {
    NodeData(index, 0, None, Follower, 0, nodes, OthersUpTo(index, nodes), [Item(0, 0, "init")], 0, 0)
  }

  /** The node as the program holds it: fields that the handlers overwrite. */
  class Node {
    const id: nat
    const config: nat
    var term: nat
    var leader: Option<nat>
    var role: Role
    var oath: nat
    var others: seq<WorkNode>
    var items: seq<Item>
    var commitIndex: nat
    var acceptIndex: nat

    ghost function Data(): NodeData
      reads this
    {
      NodeData(id, term, leader, role, oath, config, others, items, commitIndex, acceptIndex)
    }

    constructor (nodes: nat, index: nat)
      requires index < nodes
      ensures Data() == Created(nodes, index)
    {
      id, config, term, leader, role, oath := index, nodes, 0, None, Follower, 0;
      items, commitIndex, acceptIndex := [Item(0, 0, "init")], 0, 0;
      var list: seq<WorkNode> := [];
      for i := 0 to nodes
        invariant list == OthersUpTo(index, i)
      {
        if i != index {
          list := list + [WorkNode(i, 0, 0)];
        }
      }
      others := list;
    }

    method GetTailItem() returns (r: Item)
      ensures r == Tail(items)
    {
      if |items| == 0 {
        return ZERO_ITEM;
      }
      return items[|items| - 1];
    }

    method GetPreItem(item: Option<Item>) returns (r: Item)
      ensures item.None? ==> r == Tail(items)
      ensures item.Some? ==> r == PreItem(items, item.value.index)
    {
      r := ZERO_ITEM;
      if item.None? {
        r := GetTailItem();
        return;
      }
      var i := 0;
      while i < |items|
        invariant 0 <= i <= |items|
        invariant i <= PositionOf(items, item.value.index)
        invariant r == if i == 0 then ZERO_ITEM else items[i - 1]
      {
        if items[i].index == item.value.index {
          break;
        }
        r := items[i];
        i := i + 1;
      }
    }

    method Election(m: ElectionRequest) returns (reply: ElectionReply)
      modifies this
      ensures (Data(), reply) == HandleElection(old(Data()), m)
    {
      var accept := false;
      if term < m.term {
        var tail := GetTailItem();
        if tail.index > m.index {
          accept := false;
        } else {
          term, leader, accept, role := m.term, Some(m.from), true, Follower;
        }
      }
      reply := ElectionReply(accept, term, id);
    }

    method Heart(m: HeartRequest) returns (reply: nat)
      modifies this
      ensures (Data(), reply) == HandleHeart(old(Data()), m)
    {
      reply := 0;
      if m.term >= term {
        term, leader, role := m.term, Some(m.from), Follower;
      }
      var tail := GetTailItem();
      if m.commit == commitIndex + 1 && tail.index > commitIndex {
        commitIndex := commitIndex + 1;
        reply := commitIndex;
      }
    }

    method Append(m: AppendRequest, stored: bool) returns (reply: Option<AppendReply>)
      modifies this
      ensures (Data(), reply) == HandleAppend(old(Data()), m, stored)
    {
      var tail := GetTailItem();
      var accept, failed := false, false;
      if tail.term == m.preTerm && tail.index == m.preIndex && tail.index + 1 == m.entry.index {
        if stored {
          items, term, accept := items + [m.entry], m.entry.term, true;
        } else {
          failed := true;
        }
      }
      if accept {
        if id != m.from {
          role := Follower;
        }
        if m.commit == commitIndex + 1 && tail.index > commitIndex {
          commitIndex := commitIndex + 1;
        }
      }
      reply := if failed then None
               else Some(AppendReply(accept, if accept then m.entry.index else tail.index, commitIndex));
    }

    method CheckAcceptId()
      modifies this
      ensures Data() == CheckAccept(old(Data()))
    {
      var counter := 0;
      for k := 0 to |others|
        invariant unchanged(this)
        invariant counter == CountAbove(RecordedAccepts(others)[..k], acceptIndex)
      {
        CountAboveSnoc(RecordedAccepts(others), acceptIndex, k);
        if others[k].acceptIndex > acceptIndex {
          counter := counter + 1;
        }
      }
      assert RecordedAccepts(others)[..|others|] == RecordedAccepts(others);
      if counter * 2 > |others| + 1 {
        acceptIndex := acceptIndex + 1;
      }
    }

    method CheckCommitId()
      modifies this
      ensures Data() == CheckCommit(old(Data()))
    {
      var counter := 0;
      for k := 0 to |others|
        invariant unchanged(this)
        invariant counter == CountAbove(RecordedCommits(others)[..k], commitIndex)
      {
        CountAboveSnoc(RecordedCommits(others), commitIndex, k);
        if others[k].commitIndex > commitIndex {
          counter := counter + 1;
        }
      }
      assert RecordedCommits(others)[..|others|] == RecordedCommits(others);
      if counter * 2 > |others| + 1 {
        commitIndex := commitIndex + 1;
      }
    }

    method StartElection()
      modifies this
      ensures Data() == BeginCampaign(old(Data()))
    {
      oath := 1;
      term := term + 1;
    }

    method OnElectionReply(r: ElectionReply)
      modifies this
      ensures Data() == OnElectReply(old(Data()), r)
    {
      if r.accept {
        oath := oath + 1;
      } else if r.term > term {
        role := Follower;
      } else if r.term == term && r.index > id {
        role := Follower;
      }
    }

    method EndElection()
      modifies this
      ensures Data() == EndCampaign(old(Data()))
    {
      if oath * 2 > config {
        role := Leader;
      }
    }

    /** The request that `SendAppendEntry` makes for the peer at position w. */
    method MakeAppend(w: nat) returns (m: AppendRequest)
      requires w < |others|
      ensures m == AppendOf(Data(), others[w], Tail(items))
    {
      var item := GetTailItem();
      var pre := GetPreItem(Some(item));
      m := AppendRequest(id, item, pre.index, pre.term,
                         if others[w].commitIndex < others[w].acceptIndex then others[w].commitIndex + 1 else 0);
    }

    /** What the sender does with an accepting reply to `SendAppendEntry`. */
    method OnAppendAccepted(w: nat, r: AppendReply)
      requires w < |others|
      modifies this
      ensures Data() == CollectAccept(old(Data()), w, r)
    {
      others := others[w := others[w].(acceptIndex := r.appendIndex, commitIndex := r.commitIndex)];
      CheckAcceptId();
      CheckCommitId();
    }
  }
}
