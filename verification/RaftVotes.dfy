/** Election Safety and the durable single vote, over every run with crashes and restarts. */
module RaftVotes {
  import opened Bytes
  import opened RaftNode
  import opened RaftCluster
  import opened RaftElection
  import opened RaftMessages

  /** A message that spends its sender's vote: a grant, or the sender's own campaign. */
  predicate IsCast(x: Message) { (x.VoteResp? && !x.reject) || x.Vote? }

  function Choice(x: Message): nat { if x.VoteResp? then x.to else x.from }

  /** A hard state that honours a vote for `cand` in term `t`. */
  predicate Backs(term: nat, vote: nat, cand: nat, t: nat) { term > t || (term == t && vote == cand) }

  ghost predicate VotedFor(net: set<Message>, f: nat, cand: nat, t: nat) {
    exists x :: x in net && IsCast(x) && x.from == f && Choice(x) == cand && x.term == t
  }

  ghost predicate AllVotedFor(net: set<Message>, q: set<nat>, cand: nat, t: nat) {
    forall f :: f in q ==> VotedFor(net, f, cand, t)
  }

  ghost predicate IsMajority(q: set<nat>, peers: set<nat>) { q <= peers && |q| >= |peers| / 2 + 1 }

  /** The votes that made `cand` leader of term `t` are on the network. */
  ghost predicate Elected(net: set<Message>, peers: set<nat>, cand: nat, t: nat) {
    && cand in peers
    && (|peers| == 1 || exists q :: IsMajority(q, peers) && AllVotedFor(net, q, cand, t))
  }

  // ---------- invariant ----------

  ghost predicate Shape(c: Cluster) {
    && 0 !in c.nodes
    && (forall i :: i in c.nodes ==> i in c.durable && i in c.used && i in c.starts)
    && (forall i :: i in c.nodes ==> NodeShape(c, i, c.nodes[i]))
    && (forall x :: x in c.net ==> MessageShape(c, x))
  }

  ghost predicate NodeShape(c: Cluster, i: nat, n: Node) {
    && NodeOk(n) && n.id == i && 0 !in n.rounds && n in c.past
    && forall x :: x in n.msgs ==> x.from == i && MessageShape(c, x)
  }

  ghost predicate MessageShape(c: Cluster, x: Message) {
    x.from in c.nodes && x.to in c.nodes && x.from != x.to && MessageOk(x)
  }

  ghost predicate SamePeers(c: Cluster) {
    forall i :: i in c.nodes ==> c.nodes[i].prs.Keys == c.nodes.Keys
  }

  lemma PeersOf(c: Cluster, i: nat)
    requires SamePeers(c) && i in c.nodes
    ensures c.nodes[i].prs.Keys == c.nodes.Keys
  {}

  lemma ShapeOf(c: Cluster, i: nat)
    requires Shape(c) && i in c.nodes
    ensures NodeShape(c, i, c.nodes[i])
  {}

  /** What is saved is never ahead of the node, and what is not yet saved is pending. */
  ghost predicate Saved(c: Cluster)
    requires Shape(c)
  {
    forall i :: i in c.nodes ==> SavedAt(c.nodes[i], c.durable[i], i in c.ready)
  }

  ghost predicate SavedAt(n: Node, d: HardState, ready: bool) {
    && (d.term < n.term || (d.term == n.term && (d.vote == 0 || d.vote == n.vote)))
    && (n.pending.Some? ==> n.pending.value.term == n.term && n.pending.value.vote == n.vote)
    && (n.pending.None? || ready ==> d.term == n.term && d.vote == n.vote)
  }

  ghost predicate Honoured(c: Cluster)
    requires Shape(c)
  {
    && (forall x :: x in c.net && IsCast(x) ==> Backs(c.durable[x.from].term, c.durable[x.from].vote, Choice(x), x.term))
    && (forall i :: i in c.nodes ==> OutboxHonoured(c.nodes[i]))
  }

  ghost predicate OutboxHonoured(n: Node) {
    forall x :: x in n.msgs && IsCast(x) ==> Backs(n.term, n.vote, Choice(x), x.term)
  }

  ghost predicate OneVote(ms: set<Message>, f: nat) {
    forall x, y :: x in ms && y in ms && IsCast(x) && IsCast(y) && x.from == f && y.from == f && x.term == y.term ==>
      Choice(x) == Choice(y)
  }

  ghost predicate SingleVotes(c: Cluster) {
    forall f :: f in c.nodes ==> OneVote(c.net + c.nodes[f].msgs, f)
  }

  /** Every grant answers a campaign that was sent. */
  ghost predicate Asked(c: Cluster) {
    && (forall x :: x in c.net ==> HasCampaign(c.net, x))
    && (forall i, x :: i in c.nodes && x in c.nodes[i].msgs ==> HasCampaign(c.net, x))
  }

  ghost predicate HasCampaign(net: set<Message>, x: Message) {
    x.VoteResp? && !x.reject ==> VotedFor(net, x.to, x.to, x.term)
  }

  ghost predicate Counted(c: Cluster) {
    forall i :: i in c.nodes && c.nodes[i].role.Candidate? ==> CountedAt(c.net, c.nodes[i])
  }

  ghost predicate CountedAt(net: set<Message>, n: Node) {
    forall f :: f in Supporters(n.votes) ==> f in n.prs && (f == n.id || VoteResp(f, n.id, n.term, false) in net)
  }

  ghost predicate LeadersElected(c: Cluster) {
    forall a :: a in c.past && a.role.Leader? ==> Elected(c.net, c.nodes.Keys, a.id, a.term)
  }

  ghost predicate VoteInv(c: Cluster) {
    Shape(c) && SamePeers(c) && Saved(c) && Honoured(c) && SingleVotes(c) && Asked(c) && Counted(c) && LeadersElected(c)
  }

  lemma InitialNodeOk(c: Cluster, i: nat)
    requires i in c.nodes && i != 0 && InitialNode(c, i, c.nodes[i])
    ensures NodeShape(c, i, c.nodes[i]) && c.nodes[i].role.Follower? && c.nodes[i].msgs == {}
    ensures i in c.durable && i in c.used && i in c.starts && SavedAt(c.nodes[i], c.durable[i], i in c.ready)
    ensures c.nodes[i].prs.Keys == c.nodes.Keys
  {
    BootOk(c.nodes[i], c.nodes.Keys);
  }

  lemma InitialPeers(c: Cluster)
    requires Initial(c)
    ensures SamePeers(c)
  {
    hide InitialNode;
    hide NodeShape;
    hide SavedAt;
    forall i | i in c.nodes ensures c.nodes[i].prs.Keys == c.nodes.Keys { InitialNodeOk(c, i); }
  }

  lemma InitialShape(c: Cluster)
    requires Initial(c)
    ensures Shape(c) && Saved(c)
    ensures forall i :: i in c.nodes ==> c.nodes[i].role.Follower? && c.nodes[i].msgs == {}
  {
    hide InitialNode;
    hide NodeShape;
    hide SavedAt;
    forall i | i in c.nodes
      ensures NodeShape(c, i, c.nodes[i]) && c.nodes[i].role.Follower? && c.nodes[i].msgs == {}
      ensures i in c.durable && i in c.used && i in c.starts && SavedAt(c.nodes[i], c.durable[i], i in c.ready)
    {
      InitialNodeOk(c, i);
    }
  }

  lemma InitialVotes(c: Cluster)
    requires Initial(c)
    ensures VoteInv(c)
  {
    hide Elected;
    hide InitialNode;
    hide SamePeers;
    hide NodeShape;
    hide SavedAt;
    InitialPeers(c);
    InitialShape(c);
    InitialPast(c);
    forall f | f in c.nodes ensures OneVote(c.net + c.nodes[f].msgs, f) { assert c.net + c.nodes[f].msgs == {}; }
  }

  lemma InitialPast(c: Cluster)
    requires Initial(c)
    ensures forall a :: a in c.past ==> a.role.Follower?
  {
    forall a | a in c.past ensures a.role.Follower? { assert InitialNode(c, a.id, c.nodes[a.id]); }
  }

  lemma BootOk(n: Node, peers: set<nat>)
    requires n == Boot(n.id, peers, HardState(0, 0, 0), [SENTINEL], n.electionTimeout, n.heartbeatTimeout) && n.id in peers && n.id != 0
    ensures NodeOk(n) && n.prs.Keys == peers
  {}

  // ---------- calls ----------

  /** Node `i` moved; nothing else did. */
  ghost predicate Moved(c: Cluster, i: nat, c': Cluster) {
    && i in c.nodes && i in c'.nodes && i !in c.ready
    && c'.nodes == c.nodes[i := c'.nodes[i]]
    && c'.durable == c.durable && c'.ready == c.ready && c'.net == c.net && c'.past == c.past + {c'.nodes[i]}
    && (forall j :: j in c.used ==> j in c'.used) && (forall j :: j in c.starts ==> j in c'.starts)
  }

  ghost predicate Delivered(c: Cluster, i: nat, op: Op)
    requires i in c.nodes
  {
    op.Receive? ==> op.m in c.net && op.m.to == i && !StaleVote(c.nodes[i], op.m)
  }

  lemma ChangedFrame(c: Cluster, i: nat, n': Node)
    requires i in c.nodes && i in c.starts
    ensures var c' := Changed(c, i, n');
      && c'.nodes == c.nodes[i := n'] && c'.durable == c.durable && c'.ready == c.ready
      && c'.net == c.net && c'.past == c.past + {n'} && c'.used == c.used && forall j :: j in c.starts ==> j in c'.starts
  {}

  lemma DoMoves(c: Cluster, i: nat, op: Op)
    requires Shape(c) && SamePeers(c) && Enabled(c, Do(i, op))
    ensures Moved(c, i, Next(c, Do(i, op))) && Delivered(c, i, op)
    ensures Next(c, Do(i, op)).nodes[i] == Apply(c.nodes[i], op) && CallOk(c.nodes[i], op)
  {
    hide Apply;
    hide Changed;
    hide NodeOk;
    hide MessageOk;
    hide SamePeers;
    ShapeOf(c, i);
    PeersOf(c, i);
    if op.Receive? { assert MessageShape(c, op.m); }
    ChangedFrame(if op.StartRead? then c.(used := c.used[i := c.used[i] + {op.id}]) else c, i, Apply(c.nodes[i], op));
  }

  lemma MovedShape(c: Cluster, i: nat, c': Cluster)
    requires Shape(c) && SamePeers(c) && Moved(c, i, c') && VoteStep(c.nodes[i], c'.nodes[i])
    ensures Shape(c') && SamePeers(c')
  {
    hide NodeOk;
    hide MessageOk;
    hide SamePeers;
    var n, n' := c.nodes[i], c'.nodes[i];
    PeersStay(c, i, c');
    PeersOf(c', i);
    assert NodeShape(c, i, n);
    forall x | x in n'.msgs ensures x.from == i && MessageShape(c', x) {
      if x in n.msgs { assert MessageShape(c, x); } else { assert MaySend(n', x); }
    }
    forall j | j in c'.nodes ensures NodeShape(c', j, c'.nodes[j]) {
      if j != i {
        assert NodeShape(c, j, c.nodes[j]);
        forall x | x in c.nodes[j].msgs ensures MessageShape(c', x) { assert MessageShape(c, x); }
      }
    }
    forall x | x in c'.net ensures MessageShape(c', x) { assert MessageShape(c, x); }
  }

  lemma PeersStay(c: Cluster, i: nat, c': Cluster)
    requires SamePeers(c) && Moved(c, i, c') && VoteStep(c.nodes[i], c'.nodes[i])
    ensures SamePeers(c')
  {
    hide NodeOk;
    hide MaySend;
    assert c'.nodes[i].prs.Keys == c.nodes[i].prs.Keys;
  }

  lemma MovedSaved(c: Cluster, i: nat, c': Cluster)
    requires Shape(c) && Saved(c) && Moved(c, i, c') && VoteStep(c.nodes[i], c'.nodes[i]) && Shape(c')
    ensures Saved(c')
  {
    hide NodeShape;
    hide NodeOk;
    hide MaySend;
    forall j | j in c'.nodes ensures SavedAt(c'.nodes[j], c'.durable[j], j in c'.ready) {
      assert SavedAt(c.nodes[j], c.durable[j], j in c.ready);
    }
  }

  lemma OutboxStaysHonoured(n: Node, n': Node)
    requires OutboxHonoured(n) && VoteStep(n, n') && forall x :: x in n.msgs && IsCast(x) ==> Choice(x) != 0
    ensures OutboxHonoured(n')
  {
    hide NodeOk;
    forall x | x in n'.msgs && IsCast(x) ensures Backs(n'.term, n'.vote, Choice(x), x.term) {
      if x in n.msgs { assert Backs(n.term, n.vote, Choice(x), x.term); } else { assert MaySend(n', x); }
    }
  }

  lemma ChoicesAreNodes(c: Cluster, i: nat)
    requires Shape(c) && i in c.nodes
    ensures forall x :: x in c.nodes[i].msgs && IsCast(x) ==> Choice(x) != 0
    ensures forall x :: x in c.net && IsCast(x) ==> Choice(x) != 0
  {
    hide NodeOk;
    hide MessageOk;
    assert NodeShape(c, i, c.nodes[i]);
    forall x | x in c.nodes[i].msgs || x in c.net ensures Choice(x) != 0 { assert MessageShape(c, x); }
  }

  lemma MovedHonoured(c: Cluster, i: nat, c': Cluster)
    requires Shape(c) && Honoured(c) && Moved(c, i, c') && VoteStep(c.nodes[i], c'.nodes[i]) && Shape(c')
    ensures Honoured(c')
  {
    ChoicesAreNodes(c, i);
    hide VoteStep;
    hide OutboxHonoured;
    hide NodeShape;
    OutboxStaysHonoured(c.nodes[i], c'.nodes[i]);
    forall j | j in c'.nodes ensures OutboxHonoured(c'.nodes[j]) {
      if j != i { assert OutboxHonoured(c.nodes[j]); }
    }
  }

  lemma OwnVotesAgree(n: Node, d: HardState, ready: bool, n': Node, x: Message, y: Message)
    requires VoteStep(n, n') && SavedAt(n, d, ready)
    requires Backs(d.term, d.vote, Choice(x), x.term) || Backs(n.term, n.vote, Choice(x), x.term)
    requires y in n'.msgs && y !in n.msgs
    requires IsCast(x) && IsCast(y) && Choice(x) != 0 && x.term == y.term
    ensures Choice(x) == Choice(y)
  {
    hide NodeOk;
    assert MaySend(n', y);
  }

  lemma NewVotesAgree(n: Node, n': Node, x: Message, y: Message)
    requires VoteStep(n, n') && x in n'.msgs && x !in n.msgs && y in n'.msgs && y !in n.msgs
    requires IsCast(x) && IsCast(y)
    ensures Choice(x) == Choice(y)
  {
    hide NodeOk;
    assert MaySend(n', x) && MaySend(n', y);
  }

  lemma NodeSingle(net: set<Message>, n: Node, d: HardState, ready: bool, n': Node)
    requires OneVote(net + n.msgs, n.id) && VoteStep(n, n') && SavedAt(n, d, ready) && OutboxHonoured(n)
    requires forall x :: x in net && IsCast(x) && x.from == n.id ==> Backs(d.term, d.vote, Choice(x), x.term)
    requires forall x :: x in net + n.msgs && IsCast(x) ==> Choice(x) != 0
    ensures OneVote(net + n'.msgs, n.id)
  {
    hide VoteStep;
    hide SavedAt;
    hide Backs;
    hide Choice;
    var ms := net + n.msgs;
    forall x, y | x in net + n'.msgs && y in net + n'.msgs && IsCast(x) && IsCast(y)
        && x.from == n.id && y.from == n.id && x.term == y.term
      ensures Choice(x) == Choice(y)
    {
      if x in ms && y in ms {
      } else if x in ms {
        OwnVotesAgree(n, d, ready, n', x, y);
      } else if y in ms {
        OwnVotesAgree(n, d, ready, n', y, x);
      } else {
        NewVotesAgree(n, n', x, y);
      }
    }
  }

  lemma MovedSingle(c: Cluster, i: nat, c': Cluster)
    requires Shape(c) && Saved(c) && Honoured(c) && SingleVotes(c) && Moved(c, i, c') && VoteStep(c.nodes[i], c'.nodes[i])
    ensures SingleVotes(c')
  {
    var n, n' := c.nodes[i], c'.nodes[i];
    ChoicesAreNodes(c, i);
    assert n.id == i by { assert NodeShape(c, i, n); }
    hide NodeShape;
    hide VoteStep;
    hide OneVote;
    hide SavedAt;
    hide OutboxHonoured;
    hide MessageShape;
    assert SavedAt(n, c.durable[i], i in c.ready);
    NodeSingle(c.net, n, c.durable[i], i in c.ready, n');
    forall f | f in c'.nodes ensures OneVote(c'.net + c'.nodes[f].msgs, f) {
      if f != i { assert OneVote(c.net + c.nodes[f].msgs, f); }
    }
  }

  lemma MovedAsked(c: Cluster, i: nat, op: Op, c': Cluster)
    requires Asked(c) && Moved(c, i, c') && Sends(c.nodes[i], op, c'.nodes[i]) && Delivered(c, i, op)
    ensures Asked(c')
  {
    var n, n' := c.nodes[i], c'.nodes[i];
    forall j, x | j in c'.nodes && x in c'.nodes[j].msgs ensures HasCampaign(c'.net, x) {
      if j == i && x !in n.msgs {
        assert Sent(op, n', x);
        if x.VoteResp? && !x.reject {
          assert IsBallot(n', op.m, x);
          assert op.m in c.net && IsCast(op.m);
        }
      } else {
        assert HasCampaign(c.net, x);
      }
    }
  }

  lemma VotesAreCounted(net: set<Message>, n: Node, op: Op)
    requires CountedAt(net, n) && n.role.Candidate? && CallOk(n, op)
    requires op.Receive? ==> op.m in net && op.m.to == n.id && !StaleVote(n, op.m)
    ensures CountedAt(net, n.(votes := VotesWith(n, op)))
  {
    hide NodeOk;
    var a := n.(votes := VotesWith(n, op));
    forall f | f in Supporters(a.votes) ensures f in a.prs && (f == a.id || VoteResp(f, a.id, a.term, false) in net) {
      if f in Supporters(n.votes) {
      } else {
        assert op.m == VoteResp(f, n.id, n.term, false);
      }
    }
  }

  lemma NodeCounted(net: set<Message>, n: Node, op: Op, n': Node)
    requires n.role.Candidate? ==> CountedAt(net, n)
    requires CallOk(n, op) && RoleStep(n, op, n') && n'.role.Candidate? && n'.id == n.id && n'.prs.Keys == n.prs.Keys
    requires op.Receive? ==> op.m in net && op.m.to == n.id && !StaleVote(n, op.m)
    ensures CountedAt(net, n')
  {
    if n.role.Candidate? { VotesAreCounted(net, n, op); }
  }

  lemma MovedCounted(c: Cluster, i: nat, op: Op, c': Cluster)
    requires Shape(c) && Counted(c) && Moved(c, i, c') && Delivered(c, i, op) && CallOk(c.nodes[i], op)
    requires VoteStep(c.nodes[i], c'.nodes[i]) && RoleStep(c.nodes[i], op, c'.nodes[i])
    ensures Counted(c')
  {
    var n, n' := c.nodes[i], c'.nodes[i];
    assert n.id == i by { assert NodeShape(c, i, n); }
    assert n'.id == n.id && n'.prs.Keys == n.prs.Keys;
    hide Shape;
    hide VoteStep;
    hide RoleStep;
    hide CountedAt;
    hide CallOk;
    forall j | j in c'.nodes && c'.nodes[j].role.Candidate? ensures CountedAt(c'.net, c'.nodes[j]) {
      if j == i { NodeCounted(c.net, n, op, n'); } else { assert CountedAt(c.net, c.nodes[j]); }
    }
  }

  lemma WinnerIsElected(net: set<Message>, n: Node, op: Op)
    requires n.id in n.prs && CallOk(n, op) && |n.prs.Keys| != 1 && n.role.Candidate? && CountedAt(net, n)
    requires forall x :: x in net ==> HasCampaign(net, x)
    requires op.Receive? ==> op.m in net && op.m.to == n.id && !StaleVote(n, op.m)
    requires |Supporters(VotesWith(n, op))| >= |n.prs.Keys| / 2 + 1
    ensures Elected(net, n.prs.Keys, n.id, n.term)
  {
    VotesAreCounted(net, n, op);
    hide CallOk;
    hide VotesWith;
    hide Supporters;
    var q := Supporters(VotesWith(n, op));
    if q <= {n.id} { Subset(q, {n.id}); }
    var g :| g in q && g != n.id;
    var grant := VoteResp(g, n.id, n.term, false);
    assert grant in net && HasCampaign(net, grant);
    forall f | f in q ensures VotedFor(net, f, n.id, n.term) {
      if f != n.id { assert IsCast(VoteResp(f, n.id, n.term, false)); }
    }
    assert IsMajority(q, n.prs.Keys) && AllVotedFor(net, q, n.id, n.term);
  }

  lemma AloneIsElected(net: set<Message>, peers: set<nat>, cand: nat, t: nat)
    requires cand in peers && |peers| == 1
    ensures Elected(net, peers, cand, t)
  {}

  lemma NodeElected(net: set<Message>, peers: set<nat>, n: Node, op: Op, n': Node)
    requires n.prs.Keys == peers && n.id in peers && CallOk(n, op) && RoleStep(n, op, n') && n'.role.Leader?
    requires n.role.Candidate? ==> CountedAt(net, n)
    requires n.role.Leader? ==> Elected(net, peers, n.id, n.term)
    requires forall x :: x in net ==> HasCampaign(net, x)
    requires op.Receive? ==> op.m in net && op.m.to == n.id && !StaleVote(n, op.m)
    ensures Elected(net, peers, n.id, n'.term)
  {
    hide Elected;
    hide CallOk;
    hide HasCampaign;
    hide CountedAt;
    hide Supporters;
    hide VotesWith;
    assert |n.prs| == |n.prs.Keys|;
    if n.role.Leader? && n'.term == n.term {
    } else if |peers| == 1 {
      AloneIsElected(net, peers, n.id, n'.term);
    } else {
      WinnerIsElected(net, n, op);
    }
  }

  lemma MovedElected(c: Cluster, i: nat, op: Op, c': Cluster)
    requires Shape(c) && SamePeers(c) && Asked(c) && Counted(c) && LeadersElected(c) && Moved(c, i, c') && Delivered(c, i, op)
    requires CallOk(c.nodes[i], op) && VoteStep(c.nodes[i], c'.nodes[i]) && RoleStep(c.nodes[i], op, c'.nodes[i])
    ensures LeadersElected(c')
  {
    hide SamePeers;
    hide Shape;
    hide VoteStep;
    hide RoleStep;
    hide Elected;
    hide CallOk;
    hide HasCampaign;
    hide CountedAt;
    PeersOf(c, i);
    ShapeOf(c, i);
    SameId(c.nodes[i], c'.nodes[i]);
    hide NodeOk;
    assert c'.nodes.Keys == c.nodes.Keys;
    if c'.nodes[i].role.Leader? { NodeElected(c.net, c.nodes.Keys, c.nodes[i], op, c'.nodes[i]); }
  }

  lemma SameId(n: Node, n': Node)
    requires VoteStep(n, n')
    ensures n'.id == n.id
  {}

  lemma DoKeepsVotes(c: Cluster, i: nat, op: Op)
    requires VoteInv(c) && Enabled(c, Do(i, op))
    ensures VoteInv(Next(c, Do(i, op)))
  {
    hide Shape;
    hide SamePeers;
    hide Saved;
    hide Honoured;
    hide SingleVotes;
    hide Asked;
    hide Counted;
    hide LeadersElected;
    hide Apply;
    hide Next;
    hide CallOk;
    hide VoteStep;
    hide RoleStep;
    hide Sends;
    hide Moved;
    hide Delivered;
    DoMoves(c, i, op);
    ApplyVotes(c.nodes[i], op);
    ApplyRole(c.nodes[i], op);
    ApplySends(c.nodes[i], op);
    var c' := Next(c, Do(i, op));
    MovedShape(c, i, c');
    MovedSaved(c, i, c');
    MovedHonoured(c, i, c');
    MovedSingle(c, i, c');
    MovedAsked(c, i, op, c');
    MovedCounted(c, i, op, c');
    MovedElected(c, i, op, c');
  }
}
