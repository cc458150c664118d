/** The leader a node names is one: whoever a node follows in its term was leader of it. */
module RaftLeads {
  import opened Bytes
  import opened RaftNode
  import opened RaftCluster
  import opened RaftFacts
  import opened RaftElection
  import opened RaftMessages
  import opened RaftVotes
  import opened RaftVoteRuns

  ghost predicate WasLeader(past: set<Node>, id: nat, term: nat) {
    exists b :: b in past && b.role.Leader? && b.id == id && b.term == term
  }

  /** Appends come from leaders of their term only. */
  ghost predicate FromLeader(past: set<Node>, x: Message) { x.App? ==> WasLeader(past, x.from, x.term) }

  ghost predicate NamesLeader(past: set<Node>, a: Node) { a.lead != 0 ==> WasLeader(past, a.lead, a.term) }

  ghost predicate LeadInv(c: Cluster) {
    && (forall i :: i in c.nodes ==> c.nodes[i] in c.past)
    && (forall a :: a in c.past ==> NamesLeader(c.past, a))
    && (forall x :: x in c.net ==> FromLeader(c.past, x))
    && (forall i, x :: i in c.nodes && x in c.nodes[i].msgs ==> FromLeader(c.past, x))
  }

  // ---------- one call ----------

  /** A node names nobody, itself as leader, whom it named before in the term, or the
      sender of the append it has just taken. */
  ghost predicate LeadStep(n: Node, op: Op, n': Node) {
    || n'.lead == 0
    || (n'.lead == n'.id && n'.role.Leader?)
    || (n'.lead == n.lead && n'.term == n.term)
    || (op.Receive? && op.m.App? && n'.lead == op.m.from && n'.term == op.m.term)
  }

  lemma AppendEntryLeads(n: Node, data: Bytes)
    requires NodeOk(n) && 0 < n.term && 0 !in n.rounds
    ensures var n' := AppendEntry(n, data); n'.lead == n.lead && n'.term == n.term && n'.id == n.id && n'.role == n.role
  {
    hide AppendEntry;
    AppendEntryFacts(n, data);
  }

  lemma BecomeLeaderLeads(n: Node)
    requires NodeOk(n) && 0 < n.term && 0 !in n.rounds
    ensures BecomeLeader(n).lead == n.id && BecomeLeader(n).role.Leader? && BecomeLeader(n).id == n.id
  {
    hide AppendEntry;
    AppendEntryLeads(Won(n), []);
  }

  lemma CampaignLeads(n: Node, op: Op)
    requires NodeOk(n)
    ensures LeadStep(n, op, Campaign(n))
  {
    hide BecomeLeader;
    BecomeLeaderLeads(BecomeCandidate(n));
  }

  lemma StepLeads(n: Node, m: Message)
    requires CallOk(n, Receive(m))
    ensures LeadStep(n, Receive(m), Step(n, m))
  {
    hide BecomeLeader;
    hide MaybeCommit;
    hide CommitTo;
    hide Adjusted;
    var a := if m.term > n.term then BecomeFollower(n, m.term, 0) else n;
    match m
    case Vote(_, _, _, _, _) =>
    case VoteResp(_, _, _, _) =>
      if a.role.Candidate? { BecomeLeaderLeads(a.(votes := a.votes[m.from := !m.reject])); }
    case App(_, _, _, _, _, _, _, _) =>
      if !a.role.Leader? { AppendLeads(a, m); }
    case AppResp(_, _, _, _, _, _, _) =>
      if a.role.Leader? && m.from in a.prs && m.term == a.term {
        var b := AckRound(a, m.readId, m.from);
        MaybeCommitIsQuiet(b.(prs := b.prs[m.from := Adjusted(a.log, a.prs[m.from], m)]));
      }
  }

  lemma AppendLeads(n: Node, m: Message)
    requires m.App? && LogOk(n.log) && !n.role.Leader? && m.term <= n.term
    ensures var n' := HandleAppend(n, m);
      n'.term == n.term && n'.lead == if m.term == n.term then m.from else n.lead
  {
    hide CommitTo;
    if n.term == m.term && m.logIndex < |n.log| && m.logTerm == n.log[m.logIndex].term {
      var a := BecomeFollower(n, m.term, m.from).(log := Accepted(n.log, m));
      var last := |a.log| - 1;
      CommitToIsQuiet(a, if m.commit < last then m.commit else last);
    }
  }

  lemma ApplyLeads(n: Node, op: Op)
    requires CallOk(n, op)
    ensures LeadStep(n, op, Apply(n, op))
  {
    hide Step;
    hide Campaign;
    hide AppendEntry;
    hide StartRounds;
    match op
    case Receive(m) => StepLeads(n, m);
    case TickOnce(jitter) => if !n.role.Leader? { CampaignLeads(n.(electionElapsed := 0), op); }
    case LocalHup => if !n.role.Leader? { CampaignLeads(n, op); }
    case LocalBeat =>
    case ProposeData(data) => if n.role.Leader? { AppendEntryLeads(n, data); }
    case StartRead(id) =>
      if n.role.Leader? && id != 0 && id !in n.rounds {
        StartRoundsIsQuiet(n.(rounds := n.rounds[id := Round(0, false, {})]), {id});
      }
    case DropRead(id) =>
  }

  // ---------- runs ----------

  lemma StillLeader(past: set<Node>, past': set<Node>, id: nat, term: nat)
    requires past <= past' && WasLeader(past, id, term)
    ensures WasLeader(past', id, term)
  {
    var b :| b in past && b.role.Leader? && b.id == id && b.term == term;
    assert b in past';
  }

  lemma StillFrom(past: set<Node>, past': set<Node>, x: Message)
    requires past <= past' && FromLeader(past, x)
    ensures FromLeader(past', x)
  {
    if x.App? { StillLeader(past, past', x.from, x.term); }
  }

  lemma StillNames(past: set<Node>, past': set<Node>, a: Node)
    requires past <= past' && NamesLeader(past, a)
    ensures NamesLeader(past', a)
  {
    if a.lead != 0 { StillLeader(past, past', a.lead, a.term); }
  }

  lemma NewLead(past: set<Node>, past': set<Node>, n: Node, op: Op, n': Node)
    requires past' == past + {n'} && NamesLeader(past, n) && LeadStep(n, op, n')
    requires op.Receive? ==> FromLeader(past, op.m)
    ensures NamesLeader(past', n')
  {
    StillNames(past, past', n);
    if op.Receive? { StillFrom(past, past', op.m); }
    if n'.role.Leader? { assert WasLeader(past', n'.id, n'.term); }
  }

  lemma NewFrom(past': set<Node>, op: Op, n': Node, x: Message)
    requires n' in past' && Sent(op, n', x)
    ensures FromLeader(past', x)
  {}

  lemma MovedLeads(c: Cluster, i: nat, op: Op, c': Cluster)
    requires LeadInv(c) && Moved(c, i, c') && Delivered(c, i, op)
    requires LeadStep(c.nodes[i], op, c'.nodes[i]) && Sends(c.nodes[i], op, c'.nodes[i])
    ensures LeadInv(c')
  {
    hide Sent;
    hide LeadStep;
    hide NamesLeader;
    hide FromLeader;
    var n, n' := c.nodes[i], c'.nodes[i];
    assert op.Receive? ==> FromLeader(c.past, op.m);
    forall a | a in c'.past ensures NamesLeader(c'.past, a) {
      if a in c.past { StillNames(c.past, c'.past, a); } else { NewLead(c.past, c'.past, n, op, n'); }
    }
    forall x | x in c'.net ensures FromLeader(c'.past, x) { StillFrom(c.past, c'.past, x); }
    forall j, x | j in c'.nodes && x in c'.nodes[j].msgs ensures FromLeader(c'.past, x) {
      if x in c.nodes[j].msgs {
        StillFrom(c.past, c'.past, x);
      } else {
        assert j == i && Sent(op, n', x);
        NewFrom(c'.past, op, n', x);
      }
    }
  }

  lemma DoKeepsLeads(c: Cluster, i: nat, op: Op)
    requires LeadInv(c) && VoteInv(c) && Enabled(c, Do(i, op))
    ensures LeadInv(Next(c, Do(i, op)))
  {
    VoteParts(c);
    hide VoteInv;
    hide Shape;
    hide SamePeers;
    hide LeadInv;
    hide Apply;
    hide Next;
    hide LeadStep;
    hide Sends;
    hide Moved;
    hide Delivered;
    DoMoves(c, i, op);
    ApplyLeads(c.nodes[i], op);
    ApplySends(c.nodes[i], op);
    MovedLeads(c, i, op, Next(c, Do(i, op)));
  }

  lemma SameLeads(c: Cluster, c': Cluster)
    requires LeadInv(c) && c'.past == c.past && c'.nodes == c.nodes
    requires forall x :: x in c'.net ==> x in c.net || exists i :: i in c.nodes && x in c.nodes[i].msgs
    ensures LeadInv(c')
  {
    hide FromLeader;
    hide NamesLeader;
  }

  lemma ClearedLeads(c: Cluster, i: nat, c': Cluster)
    requires LeadInv(c) && Cleared(c, i, c') && c'.nodes[i].msgs == {}
    requires c'.nodes[i].lead == 0 || (c'.nodes[i].lead == c.nodes[i].lead && c'.nodes[i].term == c.nodes[i].term)
    ensures LeadInv(c')
  {
    forall a | a in c'.past ensures NamesLeader(c'.past, a) {
      if a in c.past { StillNames(c.past, c'.past, a); } else { StillNames(c.past, c'.past, c.nodes[i]); }
    }
    forall x | x in c'.net ensures FromLeader(c'.past, x) { StillFrom(c.past, c'.past, x); }
    forall j, x | j in c'.nodes && x in c'.nodes[j].msgs ensures FromLeader(c'.past, x) { StillFrom(c.past, c'.past, x); }
  }

  lemma StepKeepsLeads(c: Cluster, a: Action)
    requires LeadInv(c) && VoteInv(c) && Enabled(c, a)
    ensures LeadInv(Next(c, a))
  {
    hide VoteInv;
    hide LeadInv;
    hide Cleared;
    match a
    case Do(i, op) => DoKeepsLeads(c, i, op);
    case Persist(i) => SameLeads(c, Next(c, a));
    case Send(i, m) => SameLeads(c, Next(c, a));
    case Done(i) => DoneClears(c, i); ClearedLeads(c, i, Next(c, a));
    case Retry(i) => SameLeads(c, Next(c, a));
    case Restart(i, log) => RestartClears(c, i, log); ClearedLeads(c, i, Next(c, a));
  }

  lemma InitialLeads(c: Cluster)
    requires Initial(c)
    ensures LeadInv(c)
  {
    forall i | i in c.nodes ensures c.nodes[i].msgs == {} && c.nodes[i] in c.past && c.nodes[i].lead == 0 {
      assert InitialNode(c, i, c.nodes[i]);
    }
  }

  lemma {:induction false} RunKeepsLeads(c: Cluster, acts: seq<Action>)
    requires LeadInv(c) && VoteInv(c) && Runs(c, acts)
    ensures LeadInv(Final(c, acts))
    decreases |acts|
  {
    hide VoteInv;
    hide LeadInv;
    hide Next;
    hide Possible;
    if acts != [] {
      StepKeepsLeads(c, acts[0]);
      StepKeepsVotes(c, acts[0]);
      RunKeepsLeads(Next(c, acts[0]), acts[1..]);
    }
  }

  /** Whoever a node names as leader has been leader of the node's term, and is the only
      one; crashes and restarts included. */
  lemma NamedLeaderIsTheLeader(c: Cluster, acts: seq<Action>, a: Node, b: Node)
    requires Initial(c) && Runs(c, acts) && a in Final(c, acts).past && a.lead != 0
    ensures WasLeader(Final(c, acts).past, a.lead, a.term)
    ensures b in Final(c, acts).past && b.role.Leader? && b.term == a.term ==> b.id == a.lead
  {
    hide Initial;
    hide Runs;
    hide Final;
    InitialVotes(c);
    InitialLeads(c);
    hide VoteInv;
    RunKeepsLeads(c, acts);
    var past := Final(c, acts).past;
    assert NamesLeader(past, a);
    if b in past && b.role.Leader? && b.term == a.term {
      var l :| l in past && l.role.Leader? && l.id == a.lead && l.term == a.term;
      ElectionSafety(c, acts, b, l);
    }
  }
}
