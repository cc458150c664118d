/** Where the messages in a node's outbox come from. */
module RaftMessages {
  import opened Bytes
  import opened RaftNode
  import opened RaftCluster
  import opened RaftFacts
  import opened RaftElection

  /** The answer to an append: in the append's own term, or a bare refusal. */
  ghost predicate IsAnswer(n': Node, m: Message, x: Message) {
    && m.App? && x.AppResp? && x.from == n'.id && x.to == m.from && x.term == n'.term && x.readId == m.readId
    && m.term <= n'.term
    && (m.term == n'.term || (x.reject && x.logIndex == 0 && x.logTerm == 0))
  }

  /** The last entry of `log` is no newer than one of term `term` at `index`: its term is
      smaller, or equal with an index no larger. */
  predicate NotNewer(log: seq<LogEntry>, term: nat, index: nat)
    requires log != []
  {
    var last := |log| - 1;
    log[last].term < term || (log[last].term == term && last <= index)
  }

  /** A grant goes only to a candidate of this term whose log the voter's is not newer than. */
  ghost predicate IsBallot(n': Node, m: Message, x: Message) {
    && m.Vote? && x.VoteResp? && x.from == n'.id && x.to == m.from && x.term == n'.term
    && (!x.reject ==> m.term == n'.term && n'.log != [] && NotNewer(n'.log, m.logTerm, m.logIndex))
  }

  /** A request shows the last entry of the log the candidate campaigns with. */
  ghost predicate IsRequest(n': Node, x: Message) {
    && x.Vote? && n'.role.Candidate? && x.from == n'.id && x.term == n'.term
    && n'.log != [] && x.logIndex == |n'.log| - 1 && x.logTerm == n'.log[|n'.log| - 1].term
  }

  /** The only reasons a call adds message `x` to the outbox. */
  ghost predicate Sent(op: Op, n': Node, x: Message) {
    || (n'.role.Leader? && IsAppend(n', x))
    || IsRequest(n', x)
    || (op.Receive? && (IsBallot(n', op.m, x) || IsAnswer(n', op.m, x)))
  }

  ghost predicate Sends(n: Node, op: Op, n': Node) {
    forall x :: x in n'.msgs && x !in n.msgs ==> Sent(op, n', x)
  }

  lemma QuietSends(n: Node, op: Op, a: Node, n': Node)
    requires a.msgs == n.msgs && a.role.Leader? && Quiet(a, n')
    ensures Sends(n, op, n')
  {}

  lemma AppendEntrySends(n: Node, data: Bytes, op: Op)
    requires NodeOk(n) && 0 < n.term && 0 !in n.rounds && n.role.Leader?
    ensures Sends(n, op, AppendEntry(n, data))
  {
    hide AppendEntry;
    AppendEntryFacts(n, data);
    QuietSends(n, op, Appended(n, data), AppendEntry(n, data));
  }

  lemma BecomeLeaderSends(n: Node, op: Op)
    requires NodeOk(n) && 0 < n.term && 0 !in n.rounds
    ensures Sends(n, op, BecomeLeader(n))
  {
    hide BecomeLeader;
    BecomeLeaderFacts(n);
    QuietSends(n, op, Appended(Won(n), []), BecomeLeader(n));
  }

  lemma CampaignSends(n: Node, op: Op)
    requires NodeOk(n) && 0 !in n.rounds
    ensures Sends(n, op, Campaign(n))
  {
    hide BecomeLeader;
    BecomeLeaderSends(BecomeCandidate(n), op);
  }

  lemma HandleAppendSends(n: Node, m: Message)
    requires m.App? && m.term <= n.term && CallOk(n, Receive(m)) && !n.role.Leader?
    ensures Sends(n, Receive(m), HandleAppend(n, m))
  {
    hide CommitTo;
    if n.term == m.term && m.logIndex < |n.log| {
      if m.logTerm == n.log[m.logIndex].term {
        var a := BecomeFollower(n, m.term, m.from).(log := Accepted(n.log, m));
        var last := |a.log| - 1;
        CommitToIsQuiet(a, if m.commit < last then m.commit else last);
        FollowerStartsNothing(a, if m.commit < last then m.commit else last);
      }
    }
  }

  lemma HandleAppendRespSends(n: Node, m: Message)
    requires m.AppResp? && CallOk(n, Receive(m)) && n.role.Leader?
    ensures Sends(n, Receive(m), HandleAppendResp(n, m))
  {
    hide MaybeCommit;
    hide Adjusted;
    if m.from in n.prs && m.term == n.term {
      var a := AckRound(n, m.readId, m.from);
      var b := a.(prs := a.prs[m.from := Adjusted(n.log, n.prs[m.from], m)]);
      MaybeCommitIsQuiet(b);
      QuietSends(n, Receive(m), b, MaybeCommit(b));
    }
  }

  lemma StepSends(n: Node, m: Message)
    requires CallOk(n, Receive(m))
    ensures Sends(n, Receive(m), Step(n, m))
  {
    hide BecomeLeader;
    hide HandleAppend;
    hide HandleAppendResp;
    var a := if m.term > n.term then BecomeFollower(n, m.term, 0) else n;
    match m
    case Vote(_, _, _, _, _) =>
    case VoteResp(_, _, _, _) =>
      if a.role.Candidate? { BecomeLeaderSends(a.(votes := a.votes[m.from := !m.reject]), Receive(m)); }
    case App(_, _, _, _, _, _, _, _) =>
      if !a.role.Leader? { HandleAppendSends(a, m); }
    case AppResp(_, _, _, _, _, _, _) =>
      if a.role.Leader? { HandleAppendRespSends(a, m); }
  }

  lemma TickSends(n: Node, jitter: nat)
    requires NodeOk(n) && 0 !in n.rounds
    ensures Sends(n, TickOnce(jitter), Tick(n, jitter))
  {
    hide Campaign;
    if n.role.Leader? {
      if n.heartbeatElapsed + 1 >= n.heartbeatTimeout {
        var n' := Tick(n, jitter);
        assert Started(n') == Started(n);
        forall x | x in n'.msgs && x !in n.msgs ensures IsAppend(n', x) {}
      }
    } else {
      CampaignSends(n.(electionElapsed := 0), TickOnce(jitter));
    }
  }

  lemma ApplySends(n: Node, op: Op)
    requires CallOk(n, op)
    ensures Sends(n, op, Apply(n, op))
  {
    hide Step;
    hide Tick;
    hide Campaign;
    hide AppendEntry;
    hide StartRounds;
    match op
    case Receive(m) => StepSends(n, m);
    case TickOnce(jitter) => TickSends(n, jitter);
    case LocalHup => if !n.role.Leader? { CampaignSends(n, op); }
    case LocalBeat => if n.role.Leader? { BroadcastIsQuiet(n); QuietSends(n, op, n, Broadcast(n, 0)); }
    case ProposeData(data) => if n.role.Leader? { AppendEntrySends(n, data, op); }
    case StartRead(id) =>
      if n.role.Leader? && id != 0 && id !in n.rounds {
        var a := n.(rounds := n.rounds[id := Round(0, false, {})]);
        StartRoundsIsQuiet(a, {id});
        if CommittedInTerm(a) { QuietSends(n, op, a, StartRounds(a, {id})); }
      }
    case DropRead(id) =>
  }
}
