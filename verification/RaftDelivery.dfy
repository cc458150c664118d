/** What leaves a node in a Ready: the hard state is saved whole and comes back after a
    restart, and a completed read is handed out once. */
module RaftDelivery {
  import opened Bytes
  import opened RaftNode
  import opened RaftCluster
  import opened RaftFacts
  import opened RaftElection
  import opened RaftVotes
  import opened RaftVoteRuns
  import opened RaftReadFacts
  import opened RaftPrompt

  // ---------- one call ----------

  /** A change of term, vote or commit index is handed out whole, and results are kept. */
  ghost predicate HardStep(n: Node, n': Node) {
    && ((HardOf(n') == HardOf(n) && n'.pending == n.pending) || n'.pending == Some(HardOf(n')))
    && n.readStates <= n'.readStates
  }

  lemma CommitToHard(n: Node, i: nat)
    ensures HardStep(n, CommitTo(n, i)) && CommitTo(n, i).term == n.term && CommitTo(n, i).vote == n.vote
  {}

  lemma MaybeCommitHard(n: Node)
    requires NodeOk(n)
    ensures HardStep(n, MaybeCommit(n))
  {
    hide CommitTo;
    CommitToHard(n, QuorumMatch(n.prs));
  }

  lemma AppendEntryHard(n: Node, data: Bytes)
    requires NodeOk(n) && 0 < n.term
    ensures HardStep(n, AppendEntry(n, data))
  {
    hide MaybeCommit;
    hide LogOk;
    GrownLogOk(n.log, LogEntry(n.term, data));
    MaybeCommitHard(Broadcast(Appended(n, data), 0));
  }

  lemma BecomeLeaderHard(n: Node)
    requires NodeOk(n) && 0 < n.term
    ensures HardStep(n, BecomeLeader(n))
  {
    hide AppendEntry;
    AppendEntryHard(Won(n), []);
  }

  lemma CampaignHard(n: Node)
    requires NodeOk(n)
    ensures HardStep(n, Campaign(n))
  {
    hide BecomeLeader;
    BecomeLeaderHard(BecomeCandidate(n));
  }

  lemma HandleAppendHard(n: Node, m: Message)
    requires m.App? && LogOk(n.log) && m.term <= n.term
    ensures HardStep(n, HandleAppend(n, m))
  {
    hide CommitTo;
    if n.term == m.term && m.logIndex < |n.log| && m.logTerm == n.log[m.logIndex].term {
      var a := BecomeFollower(n, m.term, m.from).(log := Accepted(n.log, m));
      var last := |a.log| - 1;
      CommitToHard(a, if m.commit < last then m.commit else last);
    }
  }

  lemma HandleAppendRespHard(n: Node, m: Message)
    requires m.AppResp? && NodeOk(n)
    ensures HardStep(n, HandleAppendResp(n, m))
  {
    hide MaybeCommit;
    hide Adjusted;
    hide LogOk;
    if m.from in n.prs && m.term == n.term {
      var a := AckRound(n, m.readId, m.from);
      MaybeCommitHard(a.(prs := a.prs[m.from := Adjusted(n.log, n.prs[m.from], m)]));
    }
  }

  lemma StepHard(n: Node, m: Message)
    requires NodeOk(n)
    ensures HardStep(n, Step(n, m))
  {
    hide BecomeLeader;
    hide HandleAppend;
    hide HandleAppendResp;
    hide CanVote;
    var a := if m.term > n.term then BecomeFollower(n, m.term, 0) else n;
    match m
    case Vote(_, _, _, _, _) =>
    case VoteResp(_, _, _, _) =>
      if a.role.Candidate? { BecomeLeaderHard(a.(votes := a.votes[m.from := !m.reject])); }
    case App(_, _, _, _, _, _, _, _) =>
      if !a.role.Leader? { HandleAppendHard(a, m); }
    case AppResp(_, _, _, _, _, _, _) =>
      if a.role.Leader? { HandleAppendRespHard(a, m); }
  }

  lemma ApplyHard(n: Node, op: Op)
    requires NodeOk(n)
    ensures HardStep(n, Apply(n, op))
  {
    hide Step;
    hide Campaign;
    hide AppendEntry;
    match op
    case Receive(m) => StepHard(n, m);
    case TickOnce(jitter) => if !n.role.Leader? { CampaignHard(n.(electionElapsed := 0)); }
    case LocalHup => if !n.role.Leader? { CampaignHard(n); }
    case LocalBeat =>
    case ProposeData(data) => if n.role.Leader? { AppendEntryHard(n, data); }
    case StartRead(id) =>
    case DropRead(id) =>
  }

  // ---------- the saved hard state ----------

  /** What is pending is the node's hard state, and with nothing pending, or the Ready
      being sent, it is the saved one. */
  ghost predicate SavedWhole(n: Node, d: HardState, ready: bool) {
    && (n.pending.Some? ==> n.pending.value == HardOf(n))
    && (n.pending.None? || ready ==> d == HardOf(n))
  }

  ghost predicate HardInv(c: Cluster) {
    forall i :: i in c.nodes ==> i in c.durable && SavedWhole(c.nodes[i], c.durable[i], i in c.ready)
  }

  lemma InitialHard(c: Cluster)
    requires Initial(c)
    ensures HardInv(c)
  {
    forall i | i in c.nodes ensures i in c.durable && SavedWhole(c.nodes[i], c.durable[i], i in c.ready) {
      assert InitialNode(c, i, c.nodes[i]);
    }
  }

  lemma DoFrame(c: Cluster, i: nat, op: Op)
    requires Enabled(c, Do(i, op))
    ensures var c' := Next(c, Do(i, op));
      && c'.nodes == c.nodes[i := Apply(c.nodes[i], op)] && c'.durable == c.durable && c'.ready == c.ready && i !in c.ready
      && c'.used == (if op.StartRead? then c.used[i := c.used[i] + {op.id}] else c.used)
  {
    hide Apply;
    hide Begun;
  }

  lemma StepKeepsHard(c: Cluster, a: Action)
    requires HardInv(c) && Enabled(c, a)
    ensures HardInv(Next(c, a))
  {
    hide Apply;
    hide NodeOk;
    hide Begun;
    assert SavedWhole(c.nodes[a.i], c.durable[a.i], a.i in c.ready);
    match a
    case Do(i, op) =>
      DoFrame(c, i, op);
      ApplyHard(c.nodes[i], op);
      hide Next;
    case Persist(i) =>
    case Send(i, m) =>
    case Done(i) =>
    case Retry(i) =>
    case Restart(i, log) =>
  }

  lemma {:induction false} RunKeepsHard(c: Cluster, acts: seq<Action>)
    requires HardInv(c) && Runs(c, acts)
    ensures HardInv(Final(c, acts))
    decreases |acts|
  {
    hide HardInv;
    hide Next;
    hide Possible;
    if acts != [] {
      StepKeepsHard(c, acts[0]);
      RunKeepsHard(Next(c, acts[0]), acts[1..]);
    }
  }

  /** In every reachable state, while a node's messages are leaving, and whenever it has
      nothing to save, what is saved is its term, vote and commit index; so a restart then
      brings all three back. */
  lemma HardStateSurvives(c: Cluster, acts: seq<Action>, i: nat, log: seq<LogEntry>)
    requires Initial(c) && Runs(c, acts) && Enabled(Final(c, acts), Restart(i, log))
    requires i in Final(c, acts).ready || Final(c, acts).nodes[i].pending.None?
    ensures var d := Final(c, acts);
      var n' := Next(d, Restart(i, log)).nodes[i];
      n'.term == d.nodes[i].term && n'.vote == d.nodes[i].vote && n'.commit == d.nodes[i].commit && n'.log == log
  {
    hide Initial;
    hide Runs;
    hide Final;
    InitialHard(c);
    RunKeepsHard(c, acts);
    var d := Final(c, acts);
    assert SavedWhole(d.nodes[i], d.durable[i], i in d.ready);
    hide HardInv;
    hide NodeOk;
    RestartClears(d, i, log);
    hide Next;
  }

  // ---------- reads are handed out once ----------

  /** The ids of completed reads that node `i` has handed out. */
  ghost function HandedOut(c: Cluster, acts: seq<Action>, i: nat): set<nat>
    requires Runs(c, acts)
    decreases |acts|
  {
    if acts == [] then {}
    else
      (if acts[0] == Done(i) then IdsOf(c.nodes[i].readStates) else {}) + HandedOut(Next(c, acts[0]), acts[1..], i)
  }

  /** Every id is used, is in at most one place, and with one result. */
  ghost predicate OncePlaced(n: Node, used: set<nat>, gone: set<nat>) {
    && (forall r :: r in n.rounds ==> r in used && r !in gone)
    && (forall x :: x in n.readStates ==> x.id in used && x.id !in gone && x.id !in n.rounds)
    && (forall x, y :: x in n.readStates && y in n.readStates && x.id == y.id ==> x == y)
    && gone <= used
  }

  lemma CallPlacesOnce(n: Node, op: Op, used: set<nat>, gone: set<nat>)
    requires OncePlaced(n, used, gone) && CallOk(n, op) && (!n.role.Leader? ==> n.rounds == map[])
    requires op.StartRead? ==> op.id !in used
    ensures OncePlaced(Apply(n, op), if op.StartRead? then used + {op.id} else used, gone)
  {
    hide Apply;
    hide ReadStep;
    hide OncePlaced;
    ApplyReads(n, op);
    var n' := Apply(n, op);
    hide CallOk;
    if n'.role.Leader? && n.role.Leader? && n'.term == n.term {
      StaysLeader(n, op, n', used, gone);
    } else {
      LosesRounds(n, op, n', used, gone);
    }
  }

  lemma LosesRounds(n: Node, op: Op, n': Node, used: set<nat>, gone: set<nat>)
    requires OncePlaced(n, used, gone) && ReadStep(n, op, n') && (!n.role.Leader? ==> n.rounds == map[])
    requires !(n'.role.Leader? && n.role.Leader? && n'.term == n.term)
    ensures OncePlaced(n', if op.StartRead? then used + {op.id} else used, gone)
  {
    assert n'.rounds == map[] && n'.readStates <= n.readStates;
  }

  lemma StaysLeader(n: Node, op: Op, n': Node, used: set<nat>, gone: set<nat>)
    requires OncePlaced(n, used, gone) && (op.StartRead? ==> op.id !in used)
    requires n'.role.Leader? && n.role.Leader? && n'.term == n.term && ReadStep(n, op, n')
    ensures OncePlaced(n', if op.StartRead? then used + {op.id} else used, gone)
  {
    hide CommittedInTerm;
    hide Quorum;
    var used' := if op.StartRead? then used + {op.id} else used;
    forall r | r in n'.rounds ensures r in used' && r !in gone && (r in n.rounds || op == StartRead(r)) {
      assert RoundStep(n, op, n', r);
    }
    forall x | x in n'.readStates && x !in n.readStates
      ensures x.id in used' && x.id !in gone && x.id !in n'.rounds && (x.id in n.rounds || op == StartRead(x.id))
    {
      assert ResultStep(n, op, n', x);
    }
    forall x, y | x in n'.readStates && y in n'.readStates && x.id == y.id ensures x == y {
      OneResult(n, op, n', x, y);
    }
  }

  lemma OneResult(n: Node, op: Op, n': Node, x: ReadState, y: ReadState)
    requires ReadStep(n, op, n') && n'.role.Leader? && n.role.Leader? && n'.term == n.term
    requires x in n'.readStates && y in n'.readStates && x.id == y.id
    requires forall r :: r in n.rounds ==> forall z :: z in n.readStates ==> z.id != r
    requires forall z :: z in n.readStates ==> op != StartRead(z.id)
    requires x in n.readStates && y in n.readStates ==> x == y
    ensures x == y
  {
    hide CommittedInTerm;
    hide Quorum;
    if x !in n.readStates { assert ResultStep(n, op, n', x); }
    if y !in n.readStates { assert ResultStep(n, op, n', y); }
  }

  ghost predicate OnceInv(c: Cluster, i: nat, gone: set<nat>) {
    i in c.nodes && i in c.used && OncePlaced(c.nodes[i], c.used[i], gone)
  }

  lemma NoRoundsElsewhere(c: Cluster, i: nat)
    requires AllPrompt(c) && i in c.nodes && !c.nodes[i].role.Leader?
    ensures c.nodes[i].rounds == map[]
  {
    hide Undecided;
    assert Prompt(c.nodes[i]);
  }

  lemma Callable(c: Cluster, i: nat, op: Op)
    requires VoteInv(c) && Enabled(c, Do(i, op))
    ensures CallOk(c.nodes[i], op)
  {
    VoteParts(c);
    hide VoteInv;
    hide Shape;
    hide SamePeers;
    hide CallOk;
    hide Apply;
    DoMoves(c, i, op);
  }

  lemma DoKeepsOnce(c: Cluster, j: nat, op: Op, i: nat, gone: set<nat>)
    requires VoteInv(c) && AllPrompt(c) && OnceInv(c, i, gone) && Enabled(c, Do(j, op))
    ensures OnceInv(Next(c, Do(j, op)), i, gone)
  {
    hide VoteInv;
    hide AllPrompt;
    hide Apply;
    hide OncePlaced;
    hide CallOk;
    hide NodeOk;
    hide Next;
    DoFrame(c, j, op);
    if i == j {
      Callable(c, i, op);
      if !c.nodes[i].role.Leader? { NoRoundsElsewhere(c, i); }
      CallPlacesOnce(c.nodes[i], op, c.used[i], gone);
    }
  }

  lemma StepKeepsOnce(c: Cluster, a: Action, i: nat, gone: set<nat>)
    requires VoteInv(c) && AllPrompt(c) && OnceInv(c, i, gone) && Enabled(c, a)
    ensures OnceInv(Next(c, a), i, gone + if a == Done(i) then IdsOf(c.nodes[i].readStates) else {})
  {
    hide VoteInv;
    hide AllPrompt;
    hide NodeOk;
    hide Begun;
    hide Apply;
    match a
    case Do(j, op) => hide Next; hide OncePlaced; DoKeepsOnce(c, j, op, i, gone); assert gone + {} == gone;
    case Persist(j) => assert gone + {} == gone;
    case Send(j, m) => assert gone + {} == gone;
    case Done(j) =>
    case Retry(j) => assert gone + {} == gone;
    case Restart(j, log) => assert gone + {} == gone;
  }

  lemma InitialOnce(c: Cluster, i: nat)
    requires Initial(c) && i in c.nodes
    ensures OnceInv(c, i, {})
  {
    assert InitialNode(c, i, c.nodes[i]);
  }

  lemma OnceHere(c: Cluster, i: nat, gone: set<nat>)
    requires OnceInv(c, i, gone)
    ensures i in c.nodes
  {}

  lemma {:induction false} RunKeepsOnce(c: Cluster, acts: seq<Action>, i: nat, gone: set<nat>)
    requires VoteInv(c) && AllPrompt(c) && OnceInv(c, i, gone) && Runs(c, acts)
    ensures OnceInv(Final(c, acts), i, gone + HandedOut(c, acts, i))
    decreases |acts|
  {
    hide VoteInv;
    hide AllPrompt;
    hide OnceInv;
    hide Next;
    hide Possible;
    if acts == [] {
      assert gone + {} == gone;
    } else {
      var d := Next(c, acts[0]);
      OnceHere(c, i, gone);
      var now := if acts[0] == Done(i) then IdsOf(c.nodes[i].readStates) else {};
      StepKeepsOnce(c, acts[0], i, gone);
      StepKeepsVotes(c, acts[0]);
      StepKeepsPrompt(c, acts[0]);
      RunKeepsOnce(d, acts[1..], i, gone + now);
      assert gone + now + HandedOut(d, acts[1..], i) == gone + (now + HandedOut(d, acts[1..], i));
    }
  }

  /** The completed reads in a node's Ready have one result each, were not handed out before,
      and their rounds are over; crashes and restarts included. */
  lemma ReadsAreHandedOutOnce(c: Cluster, acts: seq<Action>, i: nat, x: ReadState, y: ReadState)
    requires Initial(c) && Runs(c, acts) && i in c.nodes && i in Final(c, acts).nodes && x in Final(c, acts).nodes[i].readStates
    ensures x.id !in HandedOut(c, acts, i) && x.id !in Final(c, acts).nodes[i].rounds
    ensures y in Final(c, acts).nodes[i].readStates && y.id == x.id ==> y == x
  {
    hide Runs;
    hide Final;
    hide HandedOut;
    InitialVotes(c);
    InitialPrompt(c);
    InitialOnce(c, i);
    hide Initial;
    hide VoteInv;
    hide AllPrompt;
    RunKeepsOnce(c, acts, i, {});
    assert {} + HandedOut(c, acts, i) == HandedOut(c, acts, i);
  }
}
