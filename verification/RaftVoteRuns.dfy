/** Saving, sending, finishing a Ready and restarting keep the vote invariant; hence
    Election Safety and the durable single vote over every run. */
module RaftVoteRuns {
  import opened Bytes
  import opened RaftNode
  import opened RaftCluster
  import opened RaftVotes

  // ---------- Persist ----------

  lemma SavingBacks(n: Node, d: HardState, ready: bool, d': HardState, cand: nat, t: nat)
    requires SavedAt(n, d, ready) && d'.term == n.term && d'.vote == n.vote && cand != 0 && Backs(d.term, d.vote, cand, t)
    ensures Backs(d'.term, d'.vote, cand, t)
  {}

  lemma PersistHonours(c: Cluster, i: nat)
    requires Shape(c) && Saved(c) && Honoured(c) && Enabled(c, Persist(i))
    ensures var c' := Next(c, Persist(i)); Shape(c') && Saved(c') && Honoured(c')
  {
    hide NodeOk;
    hide MessageOk;
    ChoicesAreNodes(c, i);
    var c' := Next(c, Persist(i));
    var n := c.nodes[i];
    ShapeOf(c, i);
    assert SavedAt(n, c.durable[i], i in c.ready);
    assert SavedAt(n, c'.durable[i], true);
    forall j | j in c'.nodes ensures NodeShape(c', j, c'.nodes[j]) && SavedAt(c'.nodes[j], c'.durable[j], j in c'.ready) {
      ShapeOf(c, j);
      assert SavedAt(c.nodes[j], c.durable[j], j in c.ready);
      forall x | x in c.nodes[j].msgs ensures MessageShape(c', x) { assert MessageShape(c, x); }
    }
    forall x | x in c'.net ensures MessageShape(c', x) { assert MessageShape(c, x); }
    forall x | x in c'.net && IsCast(x) ensures Backs(c'.durable[x.from].term, c'.durable[x.from].vote, Choice(x), x.term) {
      assert MessageShape(c, x);
      if x.from == i { SavingBacks(n, c.durable[i], i in c.ready, c'.durable[i], Choice(x), x.term); }
    }
  }

  lemma SameNodesSamePeers(c: Cluster, c': Cluster)
    requires SamePeers(c) && c'.nodes == c.nodes
    ensures SamePeers(c')
  {}

  lemma SameNodesSameVotes(c: Cluster, c': Cluster)
    requires SingleVotes(c) && Asked(c) && Counted(c) && LeadersElected(c)
    requires c'.nodes == c.nodes && c'.net == c.net && c'.past == c.past
    ensures SingleVotes(c') && Asked(c') && Counted(c') && LeadersElected(c')
  {
    hide OneVote;
    hide HasCampaign;
    hide CountedAt;
    hide Elected;
  }

  lemma PersistKeepsVotes(c: Cluster, i: nat)
    requires VoteInv(c) && Enabled(c, Persist(i))
    ensures VoteInv(Next(c, Persist(i)))
  {
    hide Shape;
    hide Saved;
    hide Honoured;
    hide SingleVotes;
    hide Asked;
    hide Counted;
    hide LeadersElected;
    hide SamePeers;
    PersistHonours(c, i);
    SameNodesSamePeers(c, Next(c, Persist(i)));
    SameNodesSameVotes(c, Next(c, Persist(i)));
  }

  // ---------- Send ----------

  lemma SendHonours(c: Cluster, i: nat, m: Message)
    requires Shape(c) && Saved(c) && Honoured(c) && Enabled(c, Send(i, m))
    ensures var c' := Next(c, Send(i, m)); Shape(c') && Saved(c') && Honoured(c') && m.from == i
  {
    hide NodeOk;
    hide MessageOk;
    var c' := Next(c, Send(i, m));
    ShapeOf(c, i);
    assert MessageShape(c, m);
    assert SavedAt(c.nodes[i], c.durable[i], i in c.ready) && OutboxHonoured(c.nodes[i]);
    forall j | j in c'.nodes ensures NodeShape(c', j, c'.nodes[j]) && SavedAt(c'.nodes[j], c'.durable[j], j in c'.ready) {
      ShapeOf(c, j);
      assert SavedAt(c.nodes[j], c.durable[j], j in c.ready);
      forall x | x in c.nodes[j].msgs ensures MessageShape(c', x) { assert MessageShape(c, x); }
    }
    forall x | x in c'.net ensures MessageShape(c', x) { assert MessageShape(c, x); }
  }

  lemma MoreVotes(net: set<Message>, net': set<Message>, f: nat, cand: nat, t: nat)
    requires net <= net' && VotedFor(net, f, cand, t)
    ensures VotedFor(net', f, cand, t)
  {
    var x :| x in net && IsCast(x) && x.from == f && Choice(x) == cand && x.term == t;
    assert x in net';
  }

  lemma StillElected(net: set<Message>, net': set<Message>, peers: set<nat>, cand: nat, t: nat)
    requires net <= net' && Elected(net, peers, cand, t)
    ensures Elected(net', peers, cand, t)
  {
    if |peers| != 1 {
      hide VotedFor;
      var q :| IsMajority(q, peers) && AllVotedFor(net, q, cand, t);
      forall f | f in q ensures VotedFor(net', f, cand, t) { MoreVotes(net, net', f, cand, t); }
      assert AllVotedFor(net', q, cand, t);
    }
  }

  lemma StillAsked(net: set<Message>, net': set<Message>, x: Message)
    requires net <= net' && HasCampaign(net, x)
    ensures HasCampaign(net', x)
  {
    if x.VoteResp? && !x.reject { MoreVotes(net, net', x.to, x.to, x.term); }
  }

  lemma SendSingle(c: Cluster, i: nat, m: Message, f: nat)
    requires SingleVotes(c) && i in c.nodes && f in c.nodes && m in c.nodes[i].msgs && m.from == i
    ensures OneVote(c.net + {m} + c.nodes[f].msgs, f)
  {
    assert OneVote(c.net + c.nodes[f].msgs, f);
    if f == i { assert c.net + {m} + c.nodes[f].msgs == c.net + c.nodes[f].msgs; }
  }

  lemma SendKeepsVotes(c: Cluster, i: nat, m: Message)
    requires VoteInv(c) && Enabled(c, Send(i, m))
    ensures VoteInv(Next(c, Send(i, m)))
  {
    hide Shape;
    hide Saved;
    hide Honoured;
    hide SingleVotes;
    hide Asked;
    hide Counted;
    hide LeadersElected;
    hide SamePeers;
    SendHonours(c, i, m);
    SameNodesSamePeers(c, Next(c, Send(i, m)));
    SendRest(c, i, m, Next(c, Send(i, m)));
  }

  lemma SendRest(c: Cluster, i: nat, m: Message, c': Cluster)
    requires SingleVotes(c) && Asked(c) && Counted(c) && LeadersElected(c)
    requires i in c.nodes && m in c.nodes[i].msgs && m.from == i
    requires c'.nodes == c.nodes && c'.net == c.net + {m} && c'.past == c.past
    ensures SingleVotes(c') && Asked(c') && Counted(c') && LeadersElected(c')
  {
    hide OneVote;
    hide HasCampaign;
    hide Elected;
    forall f | f in c'.nodes ensures OneVote(c'.net + c'.nodes[f].msgs, f) { SendSingle(c, i, m, f); }
    forall x | x in c'.net ensures HasCampaign(c'.net, x) { StillAsked(c.net, c'.net, x); }
    forall j, x | j in c'.nodes && x in c'.nodes[j].msgs ensures HasCampaign(c'.net, x) { StillAsked(c.net, c'.net, x); }
    forall j | j in c'.nodes && c'.nodes[j].role.Candidate? ensures CountedAt(c'.net, c'.nodes[j]) {
      assert CountedAt(c.net, c.nodes[j]);
    }
    forall a | a in c'.past && a.role.Leader? ensures Elected(c'.net, c'.nodes.Keys, a.id, a.term) {
      StillElected(c.net, c'.net, c.nodes.Keys, a.id, a.term);
    }
  }

  // ---------- Done, Retry, Restart ----------

  /** Node `i` is replaced by one with nothing left to send, as far as votes go. */
  ghost predicate Cleared(c: Cluster, i: nat, c': Cluster) {
    && i in c.nodes && i in c'.nodes && c'.nodes == c.nodes[i := c'.nodes[i]]
    && c'.durable == c.durable && c'.ready == c.ready - {i} && c'.net == c.net && c'.past == c.past + {c'.nodes[i]}
    && (forall j :: j in c.used ==> j in c'.used) && (forall j :: j in c.starts ==> j in c'.starts)
  }

  ghost predicate Blank(n: Node, d: HardState, n': Node) {
    && NodeOk(n') && n'.id == n.id && n'.prs.Keys == n.prs.Keys && 0 !in n'.rounds && n'.msgs == {}
    && n'.term == d.term && n'.vote == d.vote && n'.pending.None?
    && (n'.role.Candidate? ==> n.role.Candidate? && n'.term == n.term && n'.votes == n.votes)
    && (n'.role.Leader? ==> n.role.Leader? && n'.term == n.term)
  }

  lemma BlankOk(c: Cluster, i: nat, c': Cluster)
    requires Cleared(c, i, c') && i in c.durable && Blank(c.nodes[i], c.durable[i], c'.nodes[i]) && c.nodes[i].id == i
    ensures NodeShape(c', i, c'.nodes[i]) && SavedAt(c'.nodes[i], c'.durable[i], i in c'.ready) && OutboxHonoured(c'.nodes[i])
  {
    hide NodeOk;
  }

  lemma ClearedShape(c: Cluster, i: nat, c': Cluster)
    requires Shape(c) && Saved(c) && Honoured(c) && Cleared(c, i, c') && i in c.durable && Blank(c.nodes[i], c.durable[i], c'.nodes[i])
    ensures Shape(c') && Saved(c') && Honoured(c')
  {
    hide NodeOk;
    hide MessageOk;
    ShapeOf(c, i);
    BlankOk(c, i, c');
    hide Blank;
    forall j | j in c'.nodes && j != i
      ensures NodeShape(c', j, c'.nodes[j]) && SavedAt(c'.nodes[j], c'.durable[j], j in c'.ready) && OutboxHonoured(c'.nodes[j])
    {
      ShapeOf(c, j);
      assert SavedAt(c.nodes[j], c.durable[j], j in c.ready) && OutboxHonoured(c.nodes[j]);
      forall x | x in c.nodes[j].msgs ensures MessageShape(c', x) { assert MessageShape(c, x); }
    }
    forall x | x in c'.net ensures MessageShape(c', x) { assert MessageShape(c, x); }
  }

  lemma BlankCounted(net: set<Message>, n: Node, d: HardState, n': Node)
    requires Blank(n, d, n') && n'.role.Candidate? && CountedAt(net, n)
    ensures CountedAt(net, n')
  {}

  lemma EmptiedOutbox(c: Cluster, i: nat, c': Cluster)
    requires SingleVotes(c) && Asked(c) && Cleared(c, i, c') && c'.nodes[i].msgs == {}
    ensures SingleVotes(c') && Asked(c')
  {
    hide HasCampaign;
    forall f | f in c'.nodes ensures OneVote(c'.net + c'.nodes[f].msgs, f) { assert OneVote(c.net + c.nodes[f].msgs, f); }
  }

  lemma ClearedElected(c: Cluster, i: nat, c': Cluster)
    requires LeadersElected(c) && Cleared(c, i, c') && c.nodes[i] in c.past && c'.nodes[i].id == c.nodes[i].id
    requires c'.nodes[i].role.Leader? ==> c.nodes[i].role.Leader? && c'.nodes[i].term == c.nodes[i].term
    ensures LeadersElected(c')
  {
    hide Elected;
    assert c'.nodes.Keys == c.nodes.Keys;
  }

  lemma ClearedCounted(c: Cluster, i: nat, c': Cluster)
    requires Counted(c) && Cleared(c, i, c') && (c'.nodes[i].role.Candidate? ==> CountedAt(c.net, c'.nodes[i]))
    ensures Counted(c')
  {
    hide CountedAt;
  }

  lemma ClearedRest(c: Cluster, i: nat, c': Cluster)
    requires Shape(c) && SingleVotes(c) && Asked(c) && Counted(c) && LeadersElected(c)
    requires Cleared(c, i, c') && i in c.durable && Blank(c.nodes[i], c.durable[i], c'.nodes[i])
    ensures SingleVotes(c') && Asked(c') && Counted(c') && LeadersElected(c')
  {
    hide Shape;
    hide SingleVotes;
    hide Asked;
    hide LeadersElected;
    hide Elected;
    hide CountedAt;
    ShapeOf(c, i);
    if c'.nodes[i].role.Candidate? { BlankCounted(c.net, c.nodes[i], c.durable[i], c'.nodes[i]); }
    ClearedCounted(c, i, c');
    EmptiedOutbox(c, i, c');
    ClearedElected(c, i, c');
  }

  lemma ReplacedPeers(c: Cluster, i: nat, c': Cluster)
    requires SamePeers(c) && i in c.nodes && i in c'.nodes && c'.nodes == c.nodes[i := c'.nodes[i]]
    requires c'.nodes[i].prs.Keys == c.nodes[i].prs.Keys
    ensures SamePeers(c')
  {
    assert c'.nodes.Keys == c.nodes.Keys;
  }

  lemma ClearedVotes(c: Cluster, i: nat, c': Cluster)
    requires VoteInv(c) && Cleared(c, i, c') && i in c.durable && Blank(c.nodes[i], c.durable[i], c'.nodes[i])
    ensures VoteInv(c')
  {
    assert c'.nodes[i].prs.Keys == c.nodes[i].prs.Keys;
    hide Shape;
    hide Saved;
    hide Honoured;
    hide SingleVotes;
    hide Asked;
    hide Counted;
    hide LeadersElected;
    hide SamePeers;
    hide Blank;
    ClearedShape(c, i, c');
    ClearedRest(c, i, c');
    ReplacedPeers(c, i, c');
  }

  lemma DoneIsBlank(c: Cluster, i: nat)
    requires Shape(c) && Saved(c) && Enabled(c, Done(i))
    ensures i in c.durable && Blank(c.nodes[i], c.durable[i], Advance(c.nodes[i]))
  {
    ShapeOf(c, i);
    assert SavedAt(c.nodes[i], c.durable[i], true);
  }

  lemma RestartIsBlank(c: Cluster, i: nat, log: seq<LogEntry>)
    requires Shape(c) && Enabled(c, Restart(i, log))
    ensures var n := c.nodes[i];
      i in c.durable && Blank(n, c.durable[i], Boot(i, n.prs.Keys, c.durable[i], log, n.electionTimeout, n.heartbeatTimeout))
  {
    ShapeOf(c, i);
    var n := c.nodes[i];
    assert Boot(i, n.prs.Keys, c.durable[i], log, n.electionTimeout, n.heartbeatTimeout).prs.Keys == n.prs.Keys;
  }

  lemma DoneClears(c: Cluster, i: nat)
    requires Enabled(c, Done(i))
    ensures Cleared(c, i, Next(c, Done(i))) && Next(c, Done(i)).nodes[i] == Advance(c.nodes[i])
  {
    hide NodeOk;
    ChangedFrame(c, i, Advance(c.nodes[i]));
    hide Changed;
  }

  lemma RestartClears(c: Cluster, i: nat, log: seq<LogEntry>)
    requires Enabled(c, Restart(i, log))
    ensures Cleared(c, i, Next(c, Restart(i, log)))
    ensures var n := c.nodes[i];
      Next(c, Restart(i, log)).nodes[i] == Boot(i, n.prs.Keys, c.durable[i], log, n.electionTimeout, n.heartbeatTimeout)
  {
    hide NodeOk;
    hide Boot;
    var n := c.nodes[i];
    ChangedFrame(c, i, Boot(i, n.prs.Keys, c.durable[i], log, n.electionTimeout, n.heartbeatTimeout));
    hide Changed;
  }

  lemma DoneKeepsVotes(c: Cluster, i: nat)
    requires VoteInv(c) && Enabled(c, Done(i))
    ensures VoteInv(Next(c, Done(i)))
  {
    VoteParts(c);
    hide VoteInv;
    hide Blank;
    hide Shape;
    hide Saved;
    hide Cleared;
    hide Next;
    DoneIsBlank(c, i);
    DoneClears(c, i);
    ClearedVotes(c, i, Next(c, Done(i)));
  }

  lemma RestartKeepsVotes(c: Cluster, i: nat, log: seq<LogEntry>)
    requires VoteInv(c) && Enabled(c, Restart(i, log))
    ensures VoteInv(Next(c, Restart(i, log)))
  {
    VoteParts(c);
    hide VoteInv;
    hide Blank;
    hide Shape;
    hide Saved;
    hide Cleared;
    hide Next;
    RestartIsBlank(c, i, log);
    RestartClears(c, i, log);
    ClearedVotes(c, i, Next(c, Restart(i, log)));
  }

  lemma VoteParts(c: Cluster)
    requires VoteInv(c)
    ensures Shape(c) && Saved(c) && Honoured(c) && SingleVotes(c) && LeadersElected(c) && SamePeers(c)
  {}

  lemma RetryShape(c: Cluster, i: nat)
    requires Shape(c) && Saved(c) && Honoured(c) && Enabled(c, Retry(i))
    ensures var c' := Next(c, Retry(i)); Shape(c') && Saved(c') && Honoured(c')
  {
    hide NodeOk;
    hide OutboxHonoured;
    var c' := Next(c, Retry(i));
    forall j | j in c'.nodes ensures NodeShape(c', j, c'.nodes[j]) && SavedAt(c'.nodes[j], c'.durable[j], j in c'.ready) {
      assert NodeShape(c, j, c.nodes[j]) && SavedAt(c.nodes[j], c.durable[j], j in c.ready);
      forall x | x in c.nodes[j].msgs ensures MessageShape(c', x) { assert MessageShape(c, x); }
    }
    forall x | x in c'.net ensures MessageShape(c', x) { assert MessageShape(c, x); }
  }

  lemma RetryKeepsVotes(c: Cluster, i: nat)
    requires VoteInv(c) && Enabled(c, Retry(i))
    ensures VoteInv(Next(c, Retry(i)))
  {
    hide Shape;
    hide Saved;
    hide Honoured;
    hide SingleVotes;
    hide Asked;
    hide Counted;
    hide LeadersElected;
    hide SamePeers;
    RetryShape(c, i);
    SameNodesSamePeers(c, Next(c, Retry(i)));
    SameNodesSameVotes(c, Next(c, Retry(i)));
  }

  // ---------- runs ----------

  lemma StepKeepsVotes(c: Cluster, a: Action)
    requires VoteInv(c) && Enabled(c, a)
    ensures VoteInv(Next(c, a))
  {
    hide VoteInv;
    hide Next;
    hide Enabled;
    match a
    case Do(i, op) => DoKeepsVotes(c, i, op);
    case Persist(i) => PersistKeepsVotes(c, i);
    case Send(i, m) => SendKeepsVotes(c, i, m);
    case Done(i) => DoneKeepsVotes(c, i);
    case Retry(i) => RetryKeepsVotes(c, i);
    case Restart(i, log) => RestartKeepsVotes(c, i, log);
  }

  lemma {:induction false} RunKeepsVotes(c: Cluster, acts: seq<Action>)
    requires VoteInv(c) && Runs(c, acts)
    ensures VoteInv(Final(c, acts))
    decreases |acts|
  {
    hide VoteInv;
    hide Next;
    hide Possible;
    if acts != [] {
      StepKeepsVotes(c, acts[0]);
      RunKeepsVotes(Next(c, acts[0]), acts[1..]);
    }
  }

  lemma MajoritiesMeet(p: set<nat>, q: set<nat>, peers: set<nat>) returns (f: nat)
    requires IsMajority(p, peers) && IsMajority(q, peers)
    ensures f in p && f in q
  {
    Subset(p + q, peers);
    assert |p + q| == |p| + |q| - |p * q|;
    f :| f in p * q;
  }

  lemma OneLeader(c: Cluster, a: Node, b: Node)
    requires SingleVotes(c) && LeadersElected(c) && a in c.past && b in c.past
    requires a.role.Leader? && b.role.Leader? && a.term == b.term
    ensures a.id == b.id
  {
    var peers := c.nodes.Keys;
    hide VotedFor;
    hide OneVote;
    assert Elected(c.net, peers, a.id, a.term) && Elected(c.net, peers, b.id, b.term);
    if |peers| == 1 {
      Alone(peers, a.id, b.id);
    } else {
      var p :| IsMajority(p, peers) && AllVotedFor(c.net, p, a.id, a.term);
      var q :| IsMajority(q, peers) && AllVotedFor(c.net, q, b.id, b.term);
      var f := MajoritiesMeet(p, q, peers);
      assert OneVote(c.net + c.nodes[f].msgs, f);
      SameChoice(c.net, c.nodes[f].msgs, f, a.id, b.id, a.term);
    }
  }

  lemma Alone(peers: set<nat>, a: nat, b: nat)
    requires |peers| == 1 && a in peers && b in peers
    ensures a == b
  {
    Subset({a, b}, peers);
  }

  lemma SameChoice(net: set<Message>, ms: set<Message>, f: nat, a: nat, b: nat, t: nat)
    requires OneVote(net + ms, f) && VotedFor(net, f, a, t) && VotedFor(net, f, b, t)
    ensures a == b
  {}

  /** At most one node is ever leader in a given term, whatever crashes, restarts with
      whatever log, or is lost, repeated or reordered. */
  lemma ElectionSafety(c: Cluster, acts: seq<Action>, a: Node, b: Node)
    requires Initial(c) && Runs(c, acts)
    requires a in Final(c, acts).past && b in Final(c, acts).past
    requires a.role.Leader? && b.role.Leader? && a.term == b.term
    ensures a.id == b.id
  {
    hide Initial;
    hide Runs;
    hide Final;
    InitialVotes(c);
    RunKeepsVotes(c, acts);
    VoteParts(Final(c, acts));
    hide VoteInv;
    OneLeader(Final(c, acts), a, b);
  }

  /** No node ever sends grants to two candidates in one term, or a grant to another in
      a term in which it campaigned. */
  lemma DurableSingleVote(c: Cluster, acts: seq<Action>, x: Message, y: Message)
    requires Initial(c) && Runs(c, acts)
    requires x in Final(c, acts).net && y in Final(c, acts).net && x.from == y.from && x.term == y.term
    requires x.VoteResp? && !x.reject
    ensures y.VoteResp? && !y.reject ==> x.to == y.to
    ensures !y.Vote?
  {
    hide Initial;
    hide Runs;
    hide Final;
    InitialVotes(c);
    RunKeepsVotes(c, acts);
    var d := Final(c, acts);
    VoteParts(d);
    hide VoteInv;
    hide NodeShape;
    assert MessageShape(d, x);
    assert OneVote(d.net + d.nodes[x.from].msgs, x.from);
  }
}
