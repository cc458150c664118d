/** What one call does to a node's log, progress table, commit index and append answers. */
module RaftLogFacts {
  import opened Bytes
  import opened RaftNode
  import opened RaftCluster
  import opened RaftFacts
  import opened RaftElection

  // ---------- log ----------

  ghost predicate Kept(n: Node, n': Node) {
    n'.log == n.log && (n'.role.Leader? ==> n.role.Leader? && n'.term == n.term)
  }

  ghost predicate Grew(n: Node, n': Node) {
    && n'.role.Leader? && |n'.log| == |n.log| + 1 && n'.log[..|n.log|] == n.log && n'.log[|n.log|].term == n'.term
  }

  /** An append of the node's own term whose previous entry matches. */
  ghost predicate Fits(n: Node, m: Message, n': Node) {
    m.App? && n'.role.Follower? && n'.term == m.term && m.logIndex < |n.log| && n.log[m.logIndex].term == m.logTerm
  }

  ghost predicate Took(n: Node, m: Message, n': Node) {
    Fits(n, m, n') && m.entries != [] && n'.log == n.log[..m.logIndex + 1] + m.entries
  }

  ghost predicate Cut(n: Node, m: Message, n': Node) {
    && m.App? && n'.role.Follower? && n'.term == m.term && m.logIndex < |n.log| && n.log[m.logIndex].term != m.logTerm
    && 0 < |n'.log| <= m.logIndex && n'.log == n.log[..|n'.log|]
  }

  ghost predicate LogStep(n: Node, op: Op, n': Node) {
    || Kept(n, n')
    || Grew(n, n')
    || (op.Receive? && (Took(n, op.m, n') || Cut(n, op.m, n')))
  }

  // ---------- progress ----------

  ghost predicate PeerStep(n: Node, op: Op, n': Node, f: nat)
    requires f in n.prs && f in n'.prs
  {
    || n'.prs[f] == n.prs[f]
    || (f == n.id && Grew(n, n') && n'.prs[f] == Progress(|n.log|, |n.log| + 1))
    || (op.Receive? && op.m.AppResp? && op.m.from == f && op.m.term == n.term
        && n'.log == n.log && n'.prs[f] == Adjusted(n.log, n.prs[f], op.m))
  }

  /** A leader's table is fresh after an election, and otherwise changes for itself when
      its log grows and for the peer whose answer it handles. */
  ghost predicate ProgressStep(n: Node, op: Op, n': Node) {
    n'.role.Leader? ==>
      if n.role.Leader? && n'.term == n.term then
        forall f :: f in n'.prs ==> f in n.prs && PeerStep(n, op, n', f)
      else
        Grew(n, n') && forall f :: f in n'.prs ==>
          n'.prs[f] == if f == n.id then Progress(|n.log|, |n.log| + 1) else Progress(0, |n.log|)
  }

  // ---------- commit ----------

  ghost predicate LeaderCommits(n': Node) {
    && n'.role.Leader? && n'.commit < |n'.log| && n'.log[n'.commit].term == n'.term
    && IsQuorumMatch(n'.prs, n'.commit)
  }

  ghost predicate FollowerCommits(n: Node, m: Message, n': Node) {
    && Fits(n, m, n') && n'.log == Accepted(n.log, m)
    && n'.commit <= m.commit && n'.commit < |n'.log|
  }

  ghost predicate CommitStep(n: Node, op: Op, n': Node) {
    || n'.commit == n.commit
    || (n.commit < n'.commit && (LeaderCommits(n') || (op.Receive? && FollowerCommits(n, op.m, n'))))
  }

  // ---------- answers ----------

  ghost predicate Refused(n: Node, m: Message, x: Message)
    requires m.App? && x.AppResp?
  {
    || (|n.log| <= m.logIndex && x.logIndex == |n.log| && x.logTerm == 0)
    || (m.logIndex < |n.log| && 0 < x.logIndex <= m.logIndex && x.logTerm == n.log[m.logIndex].term != m.logTerm)
  }

  ghost predicate Granted(n: Node, m: Message, n': Node, x: Message)
    requires x.AppResp?
  {
    Fits(n, m, n') && n'.log == Accepted(n.log, m) && x.logIndex == |n'.log| - 1
  }

  ghost predicate AnswerStep(n: Node, op: Op, n': Node) {
    forall x :: x in n'.msgs && x !in n.msgs && x.AppResp? ==>
      && op.Receive? && op.m.App?
      && (|| (x.reject && x.logIndex == 0 && x.logTerm == 0)
          || (x.term == op.m.term == n'.term && (if x.reject then Refused(n, op.m, x) else Granted(n, op.m, n', x))))
  }

  ghost predicate ReplicationStep(n: Node, op: Op, n': Node) {
    LogStep(n, op, n') && ProgressStep(n, op, n') && CommitStep(n, op, n') && AnswerStep(n, op, n')
  }

  // ---------- proofs ----------

  /** A call that leaves log, progress and commit alone, adds no answer and elects nobody. */
  lemma IdleIsReplicationStep(n: Node, op: Op, n': Node)
    requires n'.log == n.log && n'.prs == n.prs && n'.commit == n.commit
    requires n'.role.Leader? ==> n.role.Leader? && n'.term == n.term
    requires forall x :: x in n'.msgs && x !in n.msgs ==> !x.AppResp?
    ensures ReplicationStep(n, op, n')
  {}

  lemma MaybeCommitCommits(n: Node)
    requires NodeOk(n) && 0 !in n.rounds && n.role.Leader?
    ensures MaybeCommit(n).commit != n.commit ==> n.commit < MaybeCommit(n).commit && LeaderCommits(MaybeCommit(n))
  {
    hide CommitTo;
    CommitToIsQuiet(n, QuorumMatch(n.prs));
  }

  lemma AppendEntryCommits(n: Node, data: Bytes)
    requires NodeOk(n) && 0 < n.term && 0 !in n.rounds && n.role.Leader?
    ensures var n' := AppendEntry(n, data); n'.commit != n.commit ==> n.commit < n'.commit && LeaderCommits(n')
  {
    hide MaybeCommit;
    hide LeaderCommits;
    hide LogOk;
    GrownLogOk(n.log, LogEntry(n.term, data));
    MaybeCommitCommits(Broadcast(Appended(n, data), 0));
  }

  lemma AppendEntryReplicates(n: Node, data: Bytes, op: Op)
    requires NodeOk(n) && 0 < n.term && 0 !in n.rounds && n.role.Leader?
    ensures ReplicationStep(n, op, AppendEntry(n, data))
  {
    hide AppendEntry;
    hide LeaderCommits;
    hide LogOk;
    AppendEntryFacts(n, data);
    AppendEntryCommits(n, data);
  }

  lemma BecomeLeaderReplicates(n: Node, op: Op)
    requires NodeOk(n) && 0 < n.term && 0 !in n.rounds && !n.role.Leader?
    ensures ReplicationStep(n, op, BecomeLeader(n))
  {
    hide AppendEntry;
    hide LeaderCommits;
    hide LogOk;
    BecomeLeaderFacts(n);
    AppendEntryCommits(Won(n), []);
  }

  lemma CampaignReplicates(n: Node, op: Op)
    requires NodeOk(n) && 0 !in n.rounds && !n.role.Leader?
    ensures ReplicationStep(n, op, Campaign(n))
  {
    hide BecomeLeader;
    hide ReplicationStep;
    var a := BecomeCandidate(n);
    if |n.prs| == 1 {
      BecomeLeaderReplicates(a, op);
      SameReplication(n, a, op, BecomeLeader(a));
    } else {
      IdleIsReplicationStep(n, op, Campaign(n));
    }
  }

  /** The step may be judged from any state with the same log, progress, commit and outbox. */
  lemma SameReplication(n: Node, a: Node, op: Op, n': Node)
    requires a.log == n.log && a.prs == n.prs && a.commit == n.commit && a.msgs == n.msgs && a.id == n.id
    requires (a.role.Leader? && n'.term == a.term) <==> (n.role.Leader? && n'.term == n.term)
    requires a.role.Leader? ==> a.term == n.term
    requires ReplicationStep(a, op, n')
    ensures ReplicationStep(n, op, n')
  {}

  lemma HandleAppendReplicates(n: Node, m: Message)
    requires m.App? && m.term <= n.term && CallOk(n, Receive(m)) && !n.role.Leader?
    ensures ReplicationStep(n, Receive(m), HandleAppend(n, m))
  {
    hide CommitTo;
    if n.term == m.term && m.logIndex < |n.log| {
      if m.logTerm == n.log[m.logIndex].term {
        var a := BecomeFollower(n, m.term, m.from).(log := Accepted(n.log, m));
        var last := |a.log| - 1;
        CommitToIsQuiet(a, if m.commit < last then m.commit else last);
        FollowerStartsNothing(a, if m.commit < last then m.commit else last);
      } else if 0 < m.logIndex {
        EntryTerm(n.log, m.logIndex);
      }
    }
  }

  lemma HandleAppendRespReplicates(n: Node, m: Message)
    requires m.AppResp? && CallOk(n, Receive(m)) && n.role.Leader?
    ensures ReplicationStep(n, Receive(m), HandleAppendResp(n, m))
  {
    hide MaybeCommit;
    hide Adjusted;
    hide LogOk;
    hide LeaderCommits;
    hide IsAppend;
    if m.from in n.prs && m.term == n.term {
      var a := AckRound(n, m.readId, m.from);
      var b := a.(prs := a.prs[m.from := Adjusted(n.log, n.prs[m.from], m)]);
      MaybeCommitIsQuiet(b);
      MaybeCommitCommits(b);
      AppendsOnly(b, MaybeCommit(b));
    }
  }

  lemma AppendsOnly(n: Node, n': Node)
    requires Quiet(n, n')
    ensures forall x :: x in n'.msgs && x !in n.msgs ==> x.App?
  {}

  lemma StepReplicates(n: Node, m: Message)
    requires CallOk(n, Receive(m))
    ensures ReplicationStep(n, Receive(m), Step(n, m))
  {
    hide BecomeLeader;
    hide HandleAppend;
    hide HandleAppendResp;
    hide ReplicationStep;
    var op := Receive(m);
    var a := if m.term > n.term then BecomeFollower(n, m.term, 0) else n;
    match m
    case Vote(_, _, _, _, _) => IdleIsReplicationStep(n, op, Step(n, m));
    case VoteResp(_, _, _, _) =>
      if a.role.Candidate? {
        var b := a.(votes := a.votes[m.from := !m.reject]);
        BecomeLeaderReplicates(b, op);
        if |Supporters(b.votes)| >= Quorum(a) {
          SameReplication(n, b, op, Step(n, m));
        } else {
          IdleIsReplicationStep(n, op, Step(n, m));
        }
      } else {
        IdleIsReplicationStep(n, op, Step(n, m));
      }
    case App(_, _, _, _, _, _, _, _) =>
      if !a.role.Leader? {
        HandleAppendReplicates(a, m);
        AppendDemotes(a, m);
        SameReplication(n, a, op, Step(n, m));
      } else {
        IdleIsReplicationStep(n, op, Step(n, m));
      }
    case AppResp(_, _, _, _, _, _, _) =>
      if a.role.Leader? {
        HandleAppendRespReplicates(a, m);
      } else {
        IdleIsReplicationStep(n, op, Step(n, m));
      }
  }

  lemma ApplyReplicates(n: Node, op: Op)
    requires CallOk(n, op)
    ensures ReplicationStep(n, op, Apply(n, op))
  {
    hide Step;
    hide Campaign;
    hide AppendEntry;
    hide StartRounds;
    hide ReplicationStep;
    match op
    case Receive(m) => StepReplicates(n, m);
    case TickOnce(jitter) =>
      if n.role.Leader? || n.electionElapsed + 1 < n.electionTimeout + jitter {
        IdleIsReplicationStep(n, op, Apply(n, op));
      } else {
        var a := n.(electionElapsed := 0);
        CampaignReplicates(a, op);
        SameReplication(n, a, op, Campaign(a));
      }
    case LocalHup =>
      if n.role.Leader? { IdleIsReplicationStep(n, op, n); } else { CampaignReplicates(n, op); }
    case LocalBeat => IdleIsReplicationStep(n, op, Apply(n, op));
    case ProposeData(data) =>
      if n.role.Leader? { AppendEntryReplicates(n, data, op); } else { IdleIsReplicationStep(n, op, n); }
    case StartRead(id) =>
      if n.role.Leader? && id != 0 && id !in n.rounds {
        var a := n.(rounds := n.rounds[id := Round(0, false, {})]);
        StartRoundsIsQuiet(a, {id});
        if CommittedInTerm(a) { StartingCommitsNothing(a, {id}); }
      }
      IdleIsReplicationStep(n, op, Apply(n, op));
    case DropRead(id) => IdleIsReplicationStep(n, op, Apply(n, op));
  }

  lemma StartingCommitsNothing(n: Node, ids: set<nat>)
    ensures StartRounds(n, ids).commit == n.commit
  {}
}
