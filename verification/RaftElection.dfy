/** Votes: what one call does to a node's vote, its campaign and its role. */
module RaftElection {
  import opened Bytes
  import opened RaftNode
  import opened RaftCluster
  import opened RaftFacts

  // ---------- one call ----------

  ghost predicate MaySend(n: Node, x: Message) {
    && x.from == n.id && x.to in n.prs && x.to != n.id && x.term <= n.term && MessageOk(x)
    && (x.VoteResp? && !x.reject ==> x.term == n.term && n.vote == x.to)
    && (x.Vote? ==> x.term == n.term && n.vote == n.id)
  }

  /** The vote only moves on with the term, what is sent agrees with it, and a change
      of term or vote is handed out to be saved. */
  ghost predicate VoteStep(n: Node, n': Node) {
    && NodeOk(n') && n'.id == n.id && n'.prs.Keys == n.prs.Keys && 0 !in n'.rounds
    && (n.term < n'.term || (n.term == n'.term && (n.vote == 0 || n'.vote == n.vote)))
    && n.msgs <= n'.msgs
    && (forall x :: x in n'.msgs && x !in n.msgs ==> MaySend(n', x))
    && (|| (n'.pending == n.pending && n'.term == n.term && n'.vote == n.vote)
        || (n'.pending.Some? && n'.pending.value.term == n'.term && n'.pending.value.vote == n'.vote))
  }

  ghost predicate CallOk(n: Node, op: Op) {
    && NodeOk(n) && 0 !in n.rounds
    && (op.Receive? ==> op.m.from in n.prs && op.m.from != n.id && op.m.from != 0 && MessageOk(op.m))
  }

  lemma SuffixTermsOk(log: seq<LogEntry>, lo: nat)
    requires LogOk(log) && 0 < lo
    ensures TermsOk(From(log, lo))
  {
    if lo < |log| { assert From(log, lo) == log[1..][lo - 1..]; }
  }

  lemma QuietIsVoteStep(n: Node, a: Node, n': Node)
    requires VoteStep(n, a) && Quiet(a, n') && 0 !in n'.rounds
    ensures VoteStep(n, n')
  {
    forall x | x in n'.msgs && x !in n.msgs ensures MaySend(n', x) {
      if x in a.msgs { assert MaySend(a, x); } else { SuffixTermsOk(n'.log, x.logIndex + 1); }
    }
  }

  lemma VoteStepTransitive(a: Node, b: Node, c: Node)
    requires VoteStep(a, b) && VoteStep(b, c)
    requires b.term == c.term ==> b.vote == c.vote || b.msgs == a.msgs
    requires b.term < c.term ==> b.msgs == a.msgs
    ensures VoteStep(a, c)
  {
    forall x | x in c.msgs && x !in a.msgs ensures MaySend(c, x) {
      if x in b.msgs { assert MaySend(b, x); }
    }
  }

  lemma BecomeFollowerVotes(n: Node, term: nat, lead: nat)
    requires NodeOk(n) && 0 !in n.rounds
    ensures VoteStep(n, BecomeFollower(n, term, lead)) && BecomeFollower(n, term, lead).msgs == n.msgs
    ensures BecomeFollower(n, term, lead).term == if term > n.term then term else n.term
  {}

  lemma RoundsStay(n: Node)
    requires NodeOk(n) && 0 !in n.rounds
    ensures 0 !in MaybeCommit(n).rounds
  {
    hide QuorumMatch;
  }

  lemma AppendEntryVotes(n: Node, data: Bytes)
    requires NodeOk(n) && 0 < n.term && 0 !in n.rounds
    ensures VoteStep(n, AppendEntry(n, data))
  {
    hide MaybeCommit;
    hide LogOk;
    AppendEntryFacts(n, data);
    var a := Appended(n, data);
    assert a.prs.Keys == n.prs.Keys;
    RoundsStay(Broadcast(a, 0));
    QuietIsVoteStep(n, a, AppendEntry(n, data));
  }

  lemma BecomeLeaderVotes(n: Node)
    requires NodeOk(n) && 0 < n.term && 0 !in n.rounds
    ensures VoteStep(n, BecomeLeader(n))
  {
    hide AppendEntry;
    AppendEntryVotes(Won(n), []);
    VoteStepTransitive(n, Won(n), BecomeLeader(n));
  }

  lemma CampaignVotes(n: Node)
    requires NodeOk(n) && 0 !in n.rounds
    ensures VoteStep(n, Campaign(n))
  {
    hide BecomeLeader;
    var a := BecomeCandidate(n);
    if |n.prs| == 1 {
      BecomeLeaderVotes(a);
      VoteStepTransitive(n, a, BecomeLeader(a));
    }
  }

  lemma HandleVoteVotes(n: Node, m: Message)
    requires m.Vote? && m.term <= n.term && CallOk(n, Receive(m))
    ensures VoteStep(n, HandleVote(n, m))
  {}

  lemma HandleVoteRespVotes(n: Node, m: Message)
    requires m.VoteResp? && CallOk(n, Receive(m)) && 0 < n.term
    ensures VoteStep(n, HandleVoteResp(n, m))
  {
    hide BecomeLeader;
    hide BecomeFollower;
    var a := n.(votes := n.votes[m.from := !m.reject]);
    BecomeLeaderVotes(a);
    BecomeFollowerVotes(a, a.term, 0);
  }

  lemma HandleAppendVotes(n: Node, m: Message)
    requires m.App? && m.term <= n.term && CallOk(n, Receive(m))
    ensures VoteStep(n, HandleAppend(n, m))
  {
    hide CommitTo;
    if n.term == m.term && m.logIndex < |n.log| {
      if m.logTerm == n.log[m.logIndex].term {
        var a := BecomeFollower(n, m.term, m.from).(log := Accepted(n.log, m));
        var last := |a.log| - 1;
        CommitToIsQuiet(a, if m.commit < last then m.commit else last);
        FollowerStartsNothing(a, if m.commit < last then m.commit else last);
      }
    }
  }

  lemma FollowerStartsNothing(n: Node, i: nat)
    requires !n.role.Leader?
    ensures CommitTo(n, i).rounds == n.rounds && CommitTo(n, i).readStates == n.readStates && CommitTo(n, i).msgs == n.msgs
  {}

  lemma HandleAppendRespVotes(n: Node, m: Message)
    requires m.AppResp? && CallOk(n, Receive(m))
    ensures VoteStep(n, HandleAppendResp(n, m))
  {
    hide MaybeCommit;
    hide Adjusted;
    if m.from in n.prs && m.term == n.term {
      var a := AckRound(n, m.readId, m.from);
      var b := a.(prs := a.prs[m.from := Adjusted(n.log, n.prs[m.from], m)]);
      assert b.prs.Keys == n.prs.Keys;
      MaybeCommitIsQuiet(b);
      RoundsStay(b);
      QuietIsVoteStep(n, b, MaybeCommit(b));
    }
  }

  lemma StepVotes(n: Node, m: Message)
    requires CallOk(n, Receive(m))
    ensures VoteStep(n, Step(n, m))
  {
    hide HandleVote;
    hide HandleVoteResp;
    hide HandleAppend;
    hide HandleAppendResp;
    hide BecomeFollower;
    BecomeFollowerVotes(n, m.term, 0);
    var a := if m.term > n.term then BecomeFollower(n, m.term, 0) else n;
    assert a.msgs == n.msgs && a.term >= m.term && (a.term == n.term ==> a == n);
    match m
    case Vote(_, _, _, _, _) =>
      HandleVoteVotes(a, m);
      VoteStepTransitive(n, a, HandleVote(a, m));
    case VoteResp(_, _, _, _) =>
      if a.role.Candidate? {
        HandleVoteRespVotes(a, m);
        VoteStepTransitive(n, a, HandleVoteResp(a, m));
      }
    case App(_, _, _, _, _, _, _, _) =>
      HandleAppendVotes(a, m);
      VoteStepTransitive(n, a, HandleAppend(a, m));
    case AppResp(_, _, _, _, _, _, _) =>
      HandleAppendRespVotes(a, m);
      VoteStepTransitive(n, a, HandleAppendResp(a, m));
  }

  lemma TickVotes(n: Node, jitter: nat)
    requires NodeOk(n) && 0 !in n.rounds
    ensures VoteStep(n, Tick(n, jitter))
  {
    hide Campaign;
    CampaignVotes(n.(electionElapsed := 0));
    VoteStepTransitive(n, n.(electionElapsed := 0), Campaign(n.(electionElapsed := 0)));
  }

  lemma ReadIndexVotes(n: Node, id: nat)
    requires NodeOk(n) && 0 !in n.rounds
    ensures VoteStep(n, ReadIndex(n, id))
  {
    hide StartRounds;
    if n.role.Leader? && id != 0 && id !in n.rounds {
      var a := n.(rounds := n.rounds[id := Round(0, false, {})]);
      StartRoundsIsQuiet(a, {id});
      if CommittedInTerm(a) {
        NoZeroRound(a, {id});
        QuietIsVoteStep(n, a, StartRounds(a, {id}));
      }
    }
  }

  lemma NoZeroRound(n: Node, ids: set<nat>)
    requires 0 !in n.rounds
    ensures 0 !in StartRounds(n, ids).rounds
  {}

  lemma ApplyVotes(n: Node, op: Op)
    requires CallOk(n, op)
    ensures VoteStep(n, Apply(n, op))
  {
    hide Step;
    hide Tick;
    hide Campaign;
    hide AppendEntry;
    hide ReadIndex;
    match op
    case Receive(m) => StepVotes(n, m);
    case TickOnce(jitter) => TickVotes(n, jitter);
    case LocalHup => CampaignVotes(n);
    case LocalBeat => BroadcastIsQuiet(n); if n.role.Leader? { QuietIsVoteStep(n, n, Broadcast(n, 0)); }
    case ProposeData(data) => if n.role.Leader? { AppendEntryVotes(n, data); }
    case StartRead(id) => ReadIndexVotes(n, id);
    case DropRead(id) =>
  }

  // ---------- candidates and leaders ----------

  /** The vote map of a candidate once the answer in `op` is counted. */
  ghost function VotesWith(n: Node, op: Op): map<nat, bool> {
    if op.Receive? && op.m.VoteResp? && op.m.term <= n.term then n.votes[op.m.from := !op.m.reject] else n.votes
  }

  /** A candidate is new or has counted at most this answer; a leader is old, alone, or
      has a majority of granted votes in its term, and steps down only for a later one. */
  ghost predicate RoleStep(n: Node, op: Op, n': Node) {
    && (n'.role.Candidate? ==>
          || (n'.term == n.term + 1 && n'.votes == map[n.id := true])
          || (n.role.Candidate? && n'.term == n.term && n'.votes == VotesWith(n, op)))
    && (n.role.Leader? && n'.term == n.term ==> n'.role.Leader?)
    && (n'.role.Leader? ==>
          || (n.role.Leader? && n'.term == n.term)
          || (!n.role.Leader? && |n.prs| == 1 && n'.term == n.term + 1)
          || (n.role.Candidate? && n'.term == n.term && |Supporters(VotesWith(n, op))| >= Quorum(n)))
  }

  lemma AppendEntryRole(n: Node, data: Bytes)
    requires NodeOk(n) && 0 < n.term && 0 !in n.rounds
    ensures AppendEntry(n, data).role == n.role && AppendEntry(n, data).term == n.term
  {
    hide AppendEntry;
    AppendEntryFacts(n, data);
  }

  lemma BecomeLeaderRole(n: Node)
    requires NodeOk(n) && 0 < n.term && 0 !in n.rounds
    ensures BecomeLeader(n).role == Leader && BecomeLeader(n).term == n.term
  {
    hide BecomeLeader;
    BecomeLeaderFacts(n);
  }

  lemma CampaignRole(n: Node, op: Op)
    requires NodeOk(n) && 0 !in n.rounds && !n.role.Leader?
    ensures RoleStep(n, op, Campaign(n))
  {
    hide BecomeLeader;
    BecomeLeaderRole(BecomeCandidate(n));
  }

  lemma StepRole(n: Node, m: Message)
    requires CallOk(n, Receive(m))
    ensures RoleStep(n, Receive(m), Step(n, m))
  {
    hide BecomeLeader;
    hide MaybeCommit;
    hide CommitTo;
    hide Adjusted;
    var a := if m.term > n.term then BecomeFollower(n, m.term, 0) else n;
    match m
    case Vote(_, _, _, _, _) =>
    case VoteResp(_, _, _, _) =>
      if a.role.Candidate? { BecomeLeaderRole(a.(votes := a.votes[m.from := !m.reject])); }
    case App(_, _, _, _, _, _, _, _) =>
      if !a.role.Leader? { AppendDemotes(a, m); }
    case AppResp(_, _, _, _, _, _, _) =>
      if a.role.Leader? && m.from in a.prs && m.term == a.term {
        var b := AckRound(a, m.readId, m.from);
        MaybeCommitIsQuiet(b.(prs := b.prs[m.from := Adjusted(a.log, a.prs[m.from], m)]));
      }
  }

  lemma AppendDemotes(n: Node, m: Message)
    requires m.App? && LogOk(n.log) && !n.role.Leader? && m.term <= n.term
    ensures HandleAppend(n, m) == n.(msgs := HandleAppend(n, m).msgs) || HandleAppend(n, m).role.Follower?
    ensures HandleAppend(n, m).term == n.term
  {
    hide CommitTo;
    if n.term == m.term && m.logIndex < |n.log| && m.logTerm == n.log[m.logIndex].term {
      var a := BecomeFollower(n, m.term, m.from).(log := Accepted(n.log, m));
      var last := |a.log| - 1;
      CommitToIsQuiet(a, if m.commit < last then m.commit else last);
    }
  }

  lemma ApplyRole(n: Node, op: Op)
    requires CallOk(n, op)
    ensures RoleStep(n, op, Apply(n, op))
  {
    hide Step;
    hide Campaign;
    hide AppendEntry;
    hide StartRounds;
    match op
    case Receive(m) => StepRole(n, m);
    case TickOnce(jitter) => if !n.role.Leader? {
      CampaignRole(n.(electionElapsed := 0), op);
    }
    case LocalHup => if !n.role.Leader? { CampaignRole(n, op); }
    case LocalBeat =>
    case ProposeData(data) => if n.role.Leader? { AppendEntryRole(n, data); }
    case StartRead(id) =>
      if n.role.Leader? && id != 0 && id !in n.rounds {
        StartRoundsIsQuiet(n.(rounds := n.rounds[id := Round(0, false, {})]), {id});
      }
    case DropRead(id) =>
  }
}
