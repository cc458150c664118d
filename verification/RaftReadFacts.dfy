/** What one call does to a node's ReadIndex rounds. */
module RaftReadFacts {
  import opened Bytes
  import opened RaftNode
  import opened RaftCluster
  import opened RaftFacts
  import opened RaftElection

  ghost predicate IsAck(n: Node, op: Op, r: nat) {
    op.Receive? && op.m.AppResp? && op.m.readId == r && r != 0 && op.m.term == n.term && op.m.from in n.prs
  }

  /** A round that may start in this call: waiting, or asked for by it. */
  ghost predicate MayStart(n: Node, op: Op, r: nat) {
    r in Waiting(n) || (op == StartRead(r) && r != 0 && r !in n.rounds)
  }

  ghost predicate RoundStep(n: Node, op: Op, n': Node, r: nat)
    requires r in n'.rounds
  {
    || (r in n.rounds && n'.rounds[r] == n.rounds[r])
    || (r in Started(n) && IsAck(n, op, r) && n'.rounds[r] == n.rounds[r].(acks := n.rounds[r].acks + {op.m.from}))
    || (MayStart(n, op, r) && n'.rounds[r] == Round(n'.commit, true, {n.id}) && CommittedInTerm(n'))
    || (op == StartRead(r) && r != 0 && r !in n.rounds && n'.rounds[r] == Round(0, false, {}))
  }

  ghost predicate ResultStep(n: Node, op: Op, n': Node, x: ReadState) {
    x.id !in n'.rounds && Finished(n, op, n', x)
  }

  ghost predicate Finished(n: Node, op: Op, n': Node, x: ReadState) {
    || (x.id in Started(n) && IsAck(n, op, x.id) && x.index == n.rounds[x.id].index
        && |n.rounds[x.id].acks + {op.m.from}| >= Quorum(n))
    || (MayStart(n, op, x.id) && Quorum(n) <= 1 && x.index == n'.commit && CommittedInTerm(n'))
  }

  /** Rounds belong to one leadership, and start and end only as listed. */
  ghost predicate ReadStep(n: Node, op: Op, n': Node) {
    if n'.role.Leader? && n.role.Leader? && n'.term == n.term then
      && (forall r :: r in n'.rounds ==> RoundStep(n, op, n', r))
      && (forall x :: x in n'.readStates && x !in n.readStates ==> ResultStep(n, op, n', x))
    else
      (n'.role.Leader? || n.role.Leader? || n.rounds == map[] ==> n'.rounds == map[]) && n'.readStates <= n.readStates
  }

  /** A commit may start rounds, and with a quorum of one finish them. */
  ghost predicate StartsWaiting(n: Node, n': Node) {
    && n.readStates <= n'.readStates
    && (forall r :: r in n'.rounds ==>
          || (r in n.rounds && n'.rounds[r] == n.rounds[r])
          || (r in Waiting(n) && n'.rounds[r] == Round(n'.commit, true, {n.id}) && CommittedInTerm(n')))
    && (forall x :: x in n'.readStates && x !in n.readStates ==>
          x.id in Waiting(n) && x.id !in n'.rounds && Quorum(n) <= 1 && x.index == n'.commit && CommittedInTerm(n'))
  }

  lemma CommitToReads(n: Node, i: nat)
    ensures StartsWaiting(n, CommitTo(n, i))
  {}

  lemma MaybeCommitReads(n: Node)
    requires NodeOk(n)
    ensures StartsWaiting(n, MaybeCommit(n))
  {
    hide CommitTo;
    CommitToReads(n, QuorumMatch(n.prs));
  }

  lemma AppendEntryReads(n: Node, data: Bytes, op: Op)
    requires NodeOk(n) && 0 < n.term && 0 !in n.rounds && n.role.Leader?
    ensures ReadStep(n, op, AppendEntry(n, data))
  {
    hide MaybeCommit;
    hide LogOk;
    AppendEntryFacts(n, data);
    var b := Broadcast(Appended(n, data), 0);
    assert Waiting(b) == Waiting(n) && |b.prs| == |n.prs| by {
      assert b.prs.Keys == n.prs.Keys;
      assert |b.prs| == |b.prs.Keys| && |n.prs| == |n.prs.Keys|;
    }
    MaybeCommitReads(b);
  }

  lemma BecomeLeaderReads(n: Node, op: Op)
    requires NodeOk(n) && 0 < n.term && n.rounds == map[] && !n.role.Leader?
    ensures BecomeLeader(n).rounds == map[] && BecomeLeader(n).readStates == n.readStates
  {
    hide MaybeCommit;
    hide LogOk;
    var a := Won(n);
    GrownLogOk(n.log, LogEntry(n.term, []));
    var b := Broadcast(Appended(a, []), 0);
    assert NodeOk(b);
    MaybeCommitReads(b);
    NoneWaiting(b, MaybeCommit(b));
  }

  lemma NoneWaiting(n: Node, n': Node)
    requires StartsWaiting(n, n') && n.rounds == map[]
    ensures n'.rounds == map[] && n'.readStates == n.readStates
  {
    assert forall r :: r !in n'.rounds;
  }

  lemma CampaignReads(n: Node, op: Op)
    requires NodeOk(n) && !n.role.Leader?
    ensures ReadStep(n, op, Campaign(n))
  {
    hide BecomeLeader;
    BecomeLeaderReads(BecomeCandidate(n), op);
  }

  ghost predicate AckedRound(n: Node, m: Message, round: Round, r: nat)
    requires r in n.rounds && m.AppResp?
  {
    || round == n.rounds[r]
    || (r in Started(n) && IsAck(n, Receive(m), r) && round == n.rounds[r].(acks := n.rounds[r].acks + {m.from}))
  }

  lemma AckReads(n: Node, m: Message, b: Node)
    requires m.AppResp? && m.from in n.prs && m.term == n.term && n.role.Leader? && b == AckRound(n, m.readId, m.from)
    ensures Waiting(b) == Waiting(n) && Quorum(b) == Quorum(n)
    ensures forall r :: r in b.rounds ==> r in n.rounds && AckedRound(n, m, b.rounds[r], r)
    ensures forall x :: x in b.readStates && x !in n.readStates ==>
              x.id !in b.rounds && x.id in Started(n) && IsAck(n, Receive(m), x.id) && x.index == n.rounds[x.id].index
              && |n.rounds[x.id].acks + {m.from}| >= Quorum(n)
  {}

  lemma HandleAppendRespReads(n: Node, m: Message)
    requires m.AppResp? && CallOk(n, Receive(m)) && n.role.Leader?
    ensures ReadStep(n, Receive(m), HandleAppendResp(n, m))
  {
    hide MaybeCommit;
    hide Adjusted;
    hide LogOk;
    if m.from in n.prs && m.term == n.term {
      var a := AckRound(n, m.readId, m.from);
      AckReads(n, m, a);
      var b := a.(prs := a.prs[m.from := Adjusted(n.log, n.prs[m.from], m)]);
      SameSize(a.prs, b.prs);
      MaybeCommitIsQuiet(b);
      MaybeCommitReads(b);
      var n' := MaybeCommit(b);
      hide IsAck;
      hide Quiet;
      forall r | r in n'.rounds ensures RoundStep(n, Receive(m), n', r) {}
      forall x | x in n'.readStates && x !in n.readStates ensures ResultStep(n, Receive(m), n', x) {}
    }
  }

  lemma SameSize(a: map<nat, Progress>, b: map<nat, Progress>)
    requires a.Keys == b.Keys
    ensures |a| == |b|
  {
    assert |a| == |a.Keys| && |b| == |b.Keys|;
  }

  lemma StepReads(n: Node, m: Message)
    requires CallOk(n, Receive(m)) && (!n.role.Leader? ==> n.rounds == map[])
    ensures ReadStep(n, Receive(m), Step(n, m))
  {
    hide BecomeLeader;
    hide CommitTo;
    hide HandleAppendResp;
    hide LogOk;
    var a := if m.term > n.term then BecomeFollower(n, m.term, 0) else n;
    match m
    case Vote(_, _, _, _, _) =>
    case VoteResp(_, _, _, _) =>
      if a.role.Candidate? { BecomeLeaderReads(a.(votes := a.votes[m.from := !m.reject]), Receive(m)); }
    case App(_, _, _, _, _, _, _, _) =>
      if !a.role.Leader? { HandleAppendReads(a, m); }
    case AppResp(_, _, _, _, _, _, _) =>
      if a.role.Leader? { HandleAppendRespReads(a, m); }
  }

  lemma HandleAppendReads(n: Node, m: Message)
    requires m.App? && LogOk(n.log) && !n.role.Leader? && m.term <= n.term && n.rounds == map[]
    ensures HandleAppend(n, m).rounds == map[] && HandleAppend(n, m).readStates == n.readStates
  {
    hide CommitTo;
    if n.term == m.term && m.logIndex < |n.log| && m.logTerm == n.log[m.logIndex].term {
      var a := BecomeFollower(n, m.term, m.from).(log := Accepted(n.log, m));
      var last := |a.log| - 1;
      FollowerStartsNothing(a, if m.commit < last then m.commit else last);
    }
  }

  lemma ReadIndexReads(n: Node, id: nat)
    requires NodeOk(n) && 0 !in n.rounds && (!n.role.Leader? ==> n.rounds == map[])
    ensures ReadStep(n, StartRead(id), ReadIndex(n, id))
  {}

  lemma ApplyReads(n: Node, op: Op)
    requires CallOk(n, op) && (!n.role.Leader? ==> n.rounds == map[])
    ensures ReadStep(n, op, Apply(n, op))
  {
    hide Step;
    hide Campaign;
    hide AppendEntry;
    hide ReadIndex;
    hide LogOk;
    match op
    case Receive(m) => StepReads(n, m);
    case TickOnce(jitter) => if !n.role.Leader? { CampaignReads(n.(electionElapsed := 0), op); }
    case LocalHup => if !n.role.Leader? { CampaignReads(n, op); }
    case LocalBeat =>
    case ProposeData(data) => if n.role.Leader? { AppendEntryReads(n, data, op); }
    case StartRead(id) => ReadIndexReads(n, id);
    case DropRead(id) =>
  }

  lemma BegunFrom(n: Node, op: Op, n': Node, r: nat)
    requires ReadStep(n, op, n') && r in Begun(n, n')
    requires !n.role.Leader? ==> n.rounds == map[]
    ensures n.role.Leader? && n'.role.Leader? && n'.term == n.term && MayStart(n, op, r) && CommittedInTerm(n')
    ensures r in Started(n') ==> n'.rounds[r] == Round(n'.commit, true, {n.id})
    ensures forall x :: x in n'.readStates && x !in n.readStates && x.id == r ==> x.index == n'.commit
  {
    if r !in Started(n') {
      var x :| x in n'.readStates - n.readStates && x.id == r;
    }
  }
}
