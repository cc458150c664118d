/** What a node must do at once: a candidate with a majority of answers is decided, a
    leader commits what a majority has, and a read round with a majority of
    acknowledgements is complete. All of it holds in every state of every run. */
module RaftPrompt {
  import opened Bytes
  import opened RaftNode
  import opened RaftCluster
  import opened RaftFacts
  import opened RaftElection
  import opened RaftVotes

  /** The largest index a majority has reached is committed if its entry is of this term. */
  ghost predicate Settled(n: Node) {
    forall q: nat :: IsQuorumMatch(n.prs, q) && q < |n.log| && n.log[q].term == n.term ==> q <= n.commit
  }

  /** No started round has a majority of acknowledgements. */
  ghost predicate RoundsOpen(n: Node) {
    forall r :: r in n.rounds && n.rounds[r].started ==> |n.rounds[r].acks| < |n.prs| / 2 + 1
  }

  /** Neither the grants nor the refusals are a majority. */
  ghost predicate Undecided(n: Node) {
    |Supporters(n.votes)| < |n.prs| / 2 + 1 && |Opponents(n.votes)| < |n.prs| / 2 + 1
  }

  /** A node that owes nothing; only leaders have read rounds. */
  ghost predicate Prompt(n: Node) {
    match n.role
    case Leader => Settled(n) && RoundsOpen(n)
    case Candidate => Undecided(n) && n.rounds == map[]
    case Follower => n.rounds == map[]
  }

  // ---------- one call ----------

  lemma SamePrs(n: Node, f: nat, pr: Progress)
    requires f in n.prs
    ensures |n.prs[f := pr]| == |n.prs|
  {
    assert n.prs[f := pr].Keys == n.prs.Keys;
    assert |n.prs[f := pr]| == |n.prs[f := pr].Keys| && |n.prs| == |n.prs.Keys|;
  }

  lemma StartRoundsStayOpen(n: Node, ids: set<nat>)
    requires RoundsOpen(n)
    ensures RoundsOpen(StartRounds(n, ids))
  {
    var n' := StartRounds(n, ids);
    forall r | r in n'.rounds && n'.rounds[r].started ensures |n'.rounds[r].acks| < |n'.prs| / 2 + 1 {
      if r in ids { assert n'.rounds[r].acks == {n.id}; } else { assert n'.rounds[r] == n.rounds[r]; }
    }
  }

  lemma CommitToStaysOpen(n: Node, i: nat)
    requires RoundsOpen(n)
    ensures RoundsOpen(CommitTo(n, i)) && i <= CommitTo(n, i).commit
    ensures CommitTo(n, i) == n.(commit := CommitTo(n, i).commit, pending := CommitTo(n, i).pending,
                                 rounds := CommitTo(n, i).rounds, readStates := CommitTo(n, i).readStates, msgs := CommitTo(n, i).msgs)
  {
    var a := MarkHard(n.(commit := i));
    StartRoundsStayOpen(a, Waiting(a));
  }

  lemma MaybeCommitSettles(n: Node)
    requires NodeOk(n) && RoundsOpen(n)
    ensures Settled(MaybeCommit(n)) && RoundsOpen(MaybeCommit(n)) && MaybeCommit(n).role == n.role
  {
    hide CommitTo;
    hide IsQuorumMatch;
    var i := QuorumMatch(n.prs);
    CommitToStaysOpen(n, i);
    var n' := MaybeCommit(n);
    forall q: nat | IsQuorumMatch(n'.prs, q) && q < |n'.log| && n'.log[q].term == n'.term ensures q <= n'.commit {
      QuorumMatchIsUnique(n.prs, i, q);
    }
  }

  lemma AppendEntryPrompt(n: Node, data: Bytes)
    requires NodeOk(n) && n.role.Leader? && RoundsOpen(n)
    ensures Prompt(AppendEntry(n, data)) && AppendEntry(n, data).role.Leader?
  {
    hide MaybeCommit;
    hide LogOk;
    GrownLogOk(n.log, LogEntry(n.term, data));
    var a := Appended(n, data);
    SamePrs(n, n.id, Progress(|n.log|, |n.log| + 1));
    MaybeCommitSettles(Broadcast(a, 0));
  }

  lemma BecomeLeaderPrompt(n: Node)
    requires NodeOk(n) && 0 < n.term && n.rounds == map[]
    ensures Prompt(BecomeLeader(n)) && BecomeLeader(n).role.Leader?
  {
    hide AppendEntry;
    AppendEntryPrompt(Won(n), []);
  }

  lemma OwnVoteOnly(id: nat)
    ensures Supporters(map[id := true]) == {id} && Opponents(map[id := true]) == {}
  {}

  lemma CampaignPrompt(n: Node)
    requires NodeOk(n)
    ensures Prompt(Campaign(n))
  {
    hide BecomeLeader;
    var a := BecomeCandidate(n);
    OwnVoteOnly(n.id);
    if |n.prs| == 1 { BecomeLeaderPrompt(a); }
    assert |n.prs| != 0;
  }

  lemma AckedStaysOpen(n: Node, id: nat, f: nat)
    requires RoundsOpen(n)
    ensures RoundsOpen(AckRound(n, id, f))
  {}

  lemma AppendRespPrompt(n: Node, m: Message)
    requires m.AppResp? && NodeOk(n) && n.role.Leader? && Prompt(n)
    ensures Prompt(HandleAppendResp(n, m))
  {
    hide MaybeCommit;
    hide Adjusted;
    if m.from in n.prs && m.term == n.term {
      var a := AckRound(n, m.readId, m.from);
      AckedStaysOpen(n, m.readId, m.from);
      SamePrs(a, m.from, Adjusted(n.log, n.prs[m.from], m));
      MaybeCommitSettles(a.(prs := a.prs[m.from := Adjusted(n.log, n.prs[m.from], m)]));
    }
  }

  lemma HandleAppendPrompt(n: Node, m: Message)
    requires m.App? && LogOk(n.log) && !n.role.Leader? && Prompt(n) && m.term <= n.term
    ensures Prompt(HandleAppend(n, m))
  {
    hide CommitTo;
    AppendDemotes(n, m);
    if n.term == m.term && m.logIndex < |n.log| && m.logTerm == n.log[m.logIndex].term {
      var a := BecomeFollower(n, m.term, m.from).(log := Accepted(n.log, m));
      var last := |a.log| - 1;
      FollowerStartsNothing(a, if m.commit < last then m.commit else last);
    }
  }

  lemma StepPrompt(n: Node, m: Message)
    requires NodeOk(n) && Prompt(n)
    ensures Prompt(Step(n, m))
  {
    hide BecomeLeader;
    hide HandleAppend;
    hide HandleAppendResp;
    hide CanVote;
    hide Settled;
    hide RoundsOpen;
    var a := if m.term > n.term then BecomeFollower(n, m.term, 0) else n;
    match m
    case Vote(_, _, _, _, _) =>
    case VoteResp(_, _, _, _) =>
      if a.role.Candidate? { BecomeLeaderPrompt(a.(votes := a.votes[m.from := !m.reject])); }
    case App(_, _, _, _, _, _, _, _) =>
      if !a.role.Leader? { HandleAppendPrompt(a, m); }
    case AppResp(_, _, _, _, _, _, _) =>
      if a.role.Leader? { AppendRespPrompt(a, m); }
  }

  lemma StaysPrompt(n: Node, n': Node)
    requires Prompt(n) && n.role.Leader? && RoundsOpen(n')
    requires n'.role == n.role && n'.prs == n.prs && n'.log == n.log && n'.term == n.term && n'.commit == n.commit
    ensures Prompt(n')
  {
    hide IsQuorumMatch;
  }

  lemma TickPrompt(n: Node, jitter: nat)
    requires NodeOk(n) && Prompt(n)
    ensures Prompt(Tick(n, jitter))
  {
    hide Campaign;
    hide Settled;
    if n.role.Leader? {
      StaysPrompt(n, Tick(n, jitter));
    } else {
      CampaignPrompt(n.(electionElapsed := 0));
    }
  }

  lemma ReadIndexPrompt(n: Node, id: nat)
    requires NodeOk(n) && Prompt(n)
    ensures Prompt(ReadIndex(n, id))
  {
    hide Settled;
    hide StartRounds;
    if n.role.Leader? && id != 0 && id !in n.rounds {
      var a := n.(rounds := n.rounds[id := Round(0, false, {})]);
      StaysPrompt(n, a);
      StartRoundsStayOpen(a, {id});
      StartRoundsKeeps(a, {id});
      StaysPrompt(a, StartRounds(a, {id}));
    }
  }

  lemma StartRoundsKeeps(n: Node, ids: set<nat>)
    ensures StartRounds(n, ids) ==
            n.(rounds := StartRounds(n, ids).rounds, readStates := StartRounds(n, ids).readStates, msgs := StartRounds(n, ids).msgs)
  {}

  lemma ApplyPrompt(n: Node, op: Op)
    requires NodeOk(n) && Prompt(n)
    ensures Prompt(Apply(n, op))
  {
    hide Step;
    hide Tick;
    hide Campaign;
    hide AppendEntry;
    hide ReadIndex;
    hide Settled;
    match op
    case Receive(m) => StepPrompt(n, m);
    case TickOnce(jitter) => TickPrompt(n, jitter);
    case LocalHup => if !n.role.Leader? { CampaignPrompt(n); }
    case LocalBeat => if n.role.Leader? { StaysPrompt(n, Broadcast(n, 0)); }
    case ProposeData(data) => if n.role.Leader? { AppendEntryPrompt(n, data); }
    case StartRead(id) => ReadIndexPrompt(n, id);
    case DropRead(id) => if n.role.Leader? { StaysPrompt(n, CancelRead(n, id)); }
  }

  // ---------- runs ----------

  /** Every state any node has passed through. */
  ghost predicate AllPrompt(c: Cluster) {
    && (forall i :: i in c.nodes ==> c.nodes[i] in c.past)
    && (forall a :: a in c.past ==> Prompt(a))
  }

  lemma InitialPrompt(c: Cluster)
    requires Initial(c)
    ensures AllPrompt(c)
  {
    forall i | i in c.nodes ensures c.nodes[i] in c.past && Prompt(c.nodes[i]) { assert InitialNode(c, i, c.nodes[i]); }
  }

  lemma NodeChanges(c: Cluster, i: nat, n': Node)
    requires AllPrompt(c) && i in c.nodes && i in c.starts && Prompt(n')
    ensures AllPrompt(Changed(c, i, n'))
  {
    hide Prompt;
    ChangedFrame(c, i, n');
    hide Changed;
  }

  lemma StepKeepsPrompt(c: Cluster, a: Action)
    requires AllPrompt(c) && Enabled(c, a)
    ensures AllPrompt(Next(c, a))
  {
    hide Apply;
    hide Changed;
    var n := c.nodes[a.i];
    assert Prompt(n);
    match a
    case Do(i, op) =>
      ApplyPrompt(n, op);
      var d := if op.StartRead? then c.(used := c.used[i := c.used[i] + {op.id}]) else c;
      hide Prompt;
      NodeChanges(d, i, Apply(n, op));
    case Persist(i) =>
    case Send(i, m) =>
    case Done(i) =>
      AdvancePrompt(n);
      NodeChanges(c, i, Advance(n));
    case Retry(i) =>
    case Restart(i, log) =>
      NodeChanges(c, i, Boot(i, n.prs.Keys, c.durable[i], log, n.electionTimeout, n.heartbeatTimeout));
  }

  lemma AdvancePrompt(n: Node)
    requires Prompt(n)
    ensures Prompt(Advance(n))
  {
    hide Settled;
    if n.role.Leader? { StaysPrompt(n, Advance(n)); }
  }

  lemma {:induction false} RunKeepsPrompt(c: Cluster, acts: seq<Action>)
    requires AllPrompt(c) && Runs(c, acts)
    ensures AllPrompt(Final(c, acts))
    decreases |acts|
  {
    hide AllPrompt;
    hide Next;
    hide Possible;
    if acts != [] {
      StepKeepsPrompt(c, acts[0]);
      RunKeepsPrompt(Next(c, acts[0]), acts[1..]);
    }
  }

  lemma AlwaysPrompt(c: Cluster, acts: seq<Action>, a: Node)
    requires Initial(c) && Runs(c, acts) && a in Final(c, acts).past
    ensures Prompt(a)
  {
    hide Initial;
    hide Runs;
    hide Final;
    hide Prompt;
    InitialPrompt(c);
    RunKeepsPrompt(c, acts);
  }

  /** No read round that a majority has acknowledged is ever left open. */
  lemma NoCompleteRoundIsOpen(c: Cluster, acts: seq<Action>, a: Node, r: nat)
    requires Initial(c) && Runs(c, acts) && a in Final(c, acts).past
    requires r in a.rounds && a.rounds[r].started
    ensures a.role.Leader? && |a.rounds[r].acks| < |a.prs| / 2 + 1
  {
    hide Initial;
    hide Runs;
    hide Final;
    AlwaysPrompt(c, acts, a);
  }

  /** No candidate ever holds a majority of grants or of refusals. */
  lemma NoDecidedCandidate(c: Cluster, acts: seq<Action>, a: Node)
    requires Initial(c) && Runs(c, acts) && a in Final(c, acts).past && a.role.Candidate?
    ensures |set f | f in a.votes && a.votes[f]| < |a.prs| / 2 + 1
    ensures |set f | f in a.votes && !a.votes[f]| < |a.prs| / 2 + 1
  {
    hide Initial;
    hide Runs;
    hide Final;
    AlwaysPrompt(c, acts, a);
    assert (set f | f in a.votes && a.votes[f]) == Supporters(a.votes);
    assert (set f | f in a.votes && !a.votes[f]) == Opponents(a.votes);
  }
}
