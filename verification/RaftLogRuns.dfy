/** Log Matching, Leader Append-Only and commit evidence over every run without restarts. */
module RaftLogRuns {
  import opened RaftNode
  import opened RaftCluster
  import opened RaftElection
  import opened RaftMessages
  import opened RaftVotes
  import opened RaftVoteRuns
  import opened RaftLogFacts
  import opened RaftLogs
  import opened RaftLogSteps

  ghost predicate NoRestarts(acts: seq<Action>) { forall k :: 0 <= k < |acts| ==> !acts[k].Restart? }

  // ---------- steps ----------

  lemma DoTops(c: Cluster, i: nat, op: Op)
    requires Enabled(c, Do(i, op))
    ensures var c', n' := Next(c, Do(i, op)), Apply(c.nodes[i], op);
      c'.tops == if n'.role.Leader? then c.tops[n'.term := n'] else c.tops
  {
    hide Apply;
    hide Begun;
  }

  lemma NodeMove(c: Cluster, i: nat, op: Op, n: Node, n': Node)
    requires CallOk(n, op) && VoteStep(n, n') && CommitStep(n, op, n')
    ensures n'.id == n.id && LogOk(n.log) && LogOk(n'.log) && n.term <= n'.term && n.commit <= n'.commit
    ensures op.Receive? ==> op.m.from != n.id && MessageOk(op.m)
    ensures n'.role.Leader? ==> 0 < n'.term
  {}

  lemma DoIsMove(c: Cluster, i: nat, op: Op)
    requires Shape(c) && SamePeers(c) && Enabled(c, Do(i, op))
    ensures Move(c, i, op, Next(c, Do(i, op))) && CallOk(c.nodes[i], op)
    ensures Next(c, Do(i, op)).nodes[i] == Apply(c.nodes[i], op)
    ensures Apply(c.nodes[i], op).role.Leader? ==> 0 < Apply(c.nodes[i], op).term
    ensures VoteStep(c.nodes[i], Apply(c.nodes[i], op)) && RoleStep(c.nodes[i], op, Apply(c.nodes[i], op))
    ensures Sends(c.nodes[i], op, Apply(c.nodes[i], op)) && ReplicationStep(c.nodes[i], op, Apply(c.nodes[i], op))
  {
    hide Apply;
    hide Next;
    hide CallOk;
    hide VoteStep;
    hide RoleStep;
    hide Sends;
    hide LogStep;
    hide ProgressStep;
    hide AnswerStep;
    hide LogOk;
    hide Shape;
    hide SamePeers;
    var n := c.nodes[i];
    DoMoves(c, i, op);
    DoTops(c, i, op);
    ShapeOf(c, i);
    ApplyVotes(n, op);
    ApplyRole(n, op);
    ApplySends(n, op);
    ApplyReplicates(n, op);
    NodeMove(c, i, op, n, Apply(n, op));
    hide NodeShape;
    hide CommitStep;
  }

  lemma ReceivedOk(c: Cluster, op: Op)
    requires MessagesOk(c) && (op.Receive? ==> op.m in c.net)
    ensures op.Receive? && op.m.App? ==> AppOk(c, op.m)
    ensures op.Receive? && op.m.AppResp? ==> RespOk(c, op.m)
  {
    hide AppOk;
    hide RespOk;
    if op.Receive? { assert InFlight(c, op.m); }
  }

  lemma StepFacts(n: Node, op: Op, n': Node)
    requires ReplicationStep(n, op, n') && RoleStep(n, op, n')
    ensures LogStep(n, op, n') && ProgressStep(n, op, n') && AnswerStep(n, op, n')
    ensures n'.role.Leader? ==> Kept(n, n') || Grew(n, n')
    ensures n.role.Leader? && n'.term == n.term ==> n'.role.Leader?
  {}

  lemma IdsOk(c: Cluster)
    requires Shape(c)
    ensures forall j :: j in c.nodes ==> c.nodes[j].id == j && forall x :: x in c.nodes[j].msgs ==> x.from == j
  {}

  /** Any move with these step facts keeps the log invariant. */
  lemma MoveKeepsLogs(c: Cluster, i: nat, op: Op, c': Cluster)
    requires LogInv(c) && Move(c, i, op, c')
    requires FreshTerm(c, i, c') && Sends(c.nodes[i], op, c'.nodes[i])
    requires ReplicationStep(c.nodes[i], op, c'.nodes[i]) && RoleStep(c.nodes[i], op, c'.nodes[i])
    requires c'.nodes[i].role.Leader? ==> 0 < c'.nodes[i].term
    requires forall j :: j in c.nodes ==> c.nodes[j].id == j
    requires forall x :: x in c'.nodes[i].msgs ==> x.from == i
    ensures LogInv(c')
  {
    hide Sends;
    StepFacts(c.nodes[i], op, c'.nodes[i]);
    ReceivedOk(c, op);
    hide ReplicationStep;
    hide RoleStep;
    hide LogStep;
    hide ProgressStep;
    hide AnswerStep;
    hide Kept;
    hide Grew;
    hide AppOk;
    hide RespOk;
    hide TopsOk;
    hide PastAnchored;
    hide MessagesOk;
    hide ProgressOk;
    hide TopsGrow;
    hide Grows;
    hide LogOk;
    TopsStep(c, i, op, c');
    SyncedStep(c, i, op, c');
    AnchoredStep(c, i, op, c');
    TopsOkStep(c, i, op, c');
    ProgressesStep(c, i, op, c');
    MessagesStep(c, i, op, c');
  }

  lemma DoKeepsLogs(c: Cluster, i: nat, op: Op)
    requires VoteInv(c) && LogInv(c) && Enabled(c, Do(i, op))
    ensures LogInv(Next(c, Do(i, op)))
  {
    VoteParts(c);
    DoKeepsVotes(c, i, op);
    VoteParts(Next(c, Do(i, op)));
    hide VoteInv;
    hide LogInv;
    IdsOk(c);
    IdsOk(Next(c, Do(i, op)));
    hide Shape;
    hide SamePeers;
    hide Saved;
    hide Honoured;
    hide SingleVotes;
    hide LeadersElected;
    hide Next;
    hide Apply;
    hide CallOk;
    hide VoteStep;
    hide RoleStep;
    hide Sends;
    hide ReplicationStep;
    DoIsMove(c, i, op);
    TopsPart(c);
    NewTermIsFresh(c, i, op, Next(c, Do(i, op)));
    hide TopsOk;
    hide FreshTerm;
    hide LogOk;
    MoveKeepsLogs(c, i, op, Next(c, Do(i, op)));
  }

  lemma TopsPart(c: Cluster)
    requires LogInv(c)
    ensures TopsOk(c) && PastAnchored(c)
  {}

  lemma AdvanceMoves(n: Node, op: Op)
    ensures ReplicationStep(n, op, Advance(n)) && Sends(n, op, Advance(n))
  {
    IdleIsReplicationStep(n, op, Advance(n));
  }

  lemma DoneIsMove(c: Cluster, i: nat)
    requires Enabled(c, Done(i)) && NodeShape(c, i, c.nodes[i])
    ensures var c' := Next(c, Done(i));
      Move(c, i, LocalBeat, c') && FreshTerm(c, i, c') && c'.nodes[i] == Advance(c.nodes[i])
  {
    hide Begun;
    hide MessageShape;
  }

  lemma DoneKeepsLogs(c: Cluster, i: nat)
    requires VoteInv(c) && LogInv(c) && Enabled(c, Done(i))
    ensures LogInv(Next(c, Done(i)))
  {
    hide VoteInv;
    hide Shape;
    hide SamePeers;
    hide Saved;
    hide Honoured;
    hide SingleVotes;
    hide LeadersElected;
    hide NodeShape;
    hide LogInv;
    hide ReplicationStep;
    hide RoleStep;
    hide Sends;
    hide Move;
    hide FreshTerm;
    hide Next;
    VoteParts(c);
    ShapeOf(c, i);
    IdsOk(c);
    LeaderTerm(c, i);
    var n := c.nodes[i];
    DoneIsMove(c, i);
    AdvanceMoves(n, LocalBeat);
    AdvanceRole(n);
    MoveKeepsLogs(c, i, LocalBeat, Next(c, Done(i)));
  }

  lemma LeaderTerm(c: Cluster, i: nat)
    requires i in c.nodes && NodeShape(c, i, c.nodes[i])
    ensures c.nodes[i].role.Leader? ==> 0 < c.nodes[i].term
  {}

  lemma AdvanceRole(n: Node)
    ensures RoleStep(n, LocalBeat, Advance(n))
  {}

  lemma SendKeepsLogs(c: Cluster, i: nat, m: Message)
    requires Shape(c) && LogInv(c) && Enabled(c, Send(i, m))
    ensures LogInv(Next(c, Send(i, m)))
  {
    ShapeOf(c, i);
    hide Shape;
    var c' := Next(c, Send(i, m));
    forall x | InFlight(c', x) ensures InFlight(c, x) {}
    SameLogs(c, c');
  }

  lemma SameLogs(c: Cluster, c': Cluster)
    requires LogInv(c) && c'.nodes == c.nodes && c'.past == c.past && c'.tops == c.tops
    requires forall x :: InFlight(c', x) ==> InFlight(c, x)
    ensures LogInv(c')
  {
    hide Anchored;
    hide LogOk;
    hide InFlight;
    hide Held;
    hide SliceOf;
    assert TopsOk(c') by {
      forall t | t in c'.tops ensures TopOk(c', t, c'.tops[t]) { assert TopOk(c, t, c.tops[t]); }
    }
    assert forall f, t :: Synced(c, f, t) == Synced(c', f, t);
    hide Synced;
    forall x | InFlight(c', x) ensures (x.App? ==> AppOk(c', x)) && (x.AppResp? ==> RespOk(c', x)) {}
    forall i, f | i in c'.nodes && c'.nodes[i].role.Leader? && f in c'.nodes[i].prs
      ensures PeerOk(c', c'.nodes[i], f, c'.nodes[i].prs[f])
    {
      assert PeerOk(c, c.nodes[i], f, c.nodes[i].prs[f]);
    }
  }

  lemma PersistKeepsLogs(c: Cluster, i: nat)
    requires LogInv(c) && Enabled(c, Persist(i))
    ensures LogInv(Next(c, Persist(i)))
  {
    hide LogInv;
    hide NodeOk;
    SameLogs(c, Next(c, Persist(i)));
  }

  lemma RetryKeepsLogs(c: Cluster, i: nat)
    requires LogInv(c) && Enabled(c, Retry(i))
    ensures LogInv(Next(c, Retry(i)))
  {
    hide LogInv;
    hide NodeOk;
    SameLogs(c, Next(c, Retry(i)));
  }

  lemma StepKeepsLogs(c: Cluster, a: Action)
    requires VoteInv(c) && LogInv(c) && Enabled(c, a) && !a.Restart?
    ensures LogInv(Next(c, a))
  {
    hide LogInv;
    hide VoteInv;
    hide Possible;
    hide Next;
    hide Shape;
    match a
    case Do(i, op) => DoKeepsLogs(c, i, op);
    case Persist(i) => PersistKeepsLogs(c, i);
    case Send(i, m) => VoteParts(c); SendKeepsLogs(c, i, m);
    case Done(i) => DoneKeepsLogs(c, i);
    case Retry(i) => RetryKeepsLogs(c, i);
  }

  // ---------- runs ----------

  lemma {:induction false} RunKeepsLogs(c: Cluster, acts: seq<Action>)
    requires VoteInv(c) && LogInv(c) && Runs(c, acts) && NoRestarts(acts)
    ensures VoteInv(Final(c, acts)) && LogInv(Final(c, acts))
    decreases |acts|
  {
    hide VoteInv;
    hide LogInv;
    hide Next;
    hide Possible;
    if acts != [] {
      StepKeepsVotes(c, acts[0]);
      StepKeepsLogs(c, acts[0]);
      RunKeepsLogs(Next(c, acts[0]), acts[1..]);
    }
  }

  lemma ReachableLogs(c: Cluster, acts: seq<Action>)
    requires Initial(c) && Runs(c, acts) && NoRestarts(acts)
    ensures VoteInv(Final(c, acts)) && LogInv(Final(c, acts))
  {
    hide Initial;
    hide VoteInv;
    hide LogInv;
    InitialVotes(c);
    InitialLogs(c);
    RunKeepsLogs(c, acts);
  }

  /** Two logs any nodes ever had, at any two moments, that hold an entry with the same
      index and term are equal up to it. */
  lemma LogMatching(c: Cluster, acts: seq<Action>, a: Node, b: Node, k: nat)
    requires Initial(c) && Runs(c, acts) && NoRestarts(acts)
    requires a in Final(c, acts).past && b in Final(c, acts).past
    requires k < |a.log| && k < |b.log| && a.log[k].term == b.log[k].term
    ensures a.log[..k + 1] == b.log[..k + 1]
  {
    hide Initial;
    hide Runs;
    hide Final;
    ReachableLogs(c, acts);
    hide VoteInv;
    var d := Final(c, acts);
    TopsPart(d);
    hide LogInv;
    SameTermAgrees(a.log, b.log, k, d.tops);
  }

  /** While a node stays leader of a term its log only grows at the end. */
  lemma {:induction false} LeaderAppendOnly(c: Cluster, acts: seq<Action>, i: nat)
    requires VoteInv(c) && Runs(c, acts) && NoRestarts(acts) && i in c.nodes && c.nodes[i].role.Leader?
    ensures i in Final(c, acts).nodes && c.nodes[i].term <= Final(c, acts).nodes[i].term
    ensures Final(c, acts).nodes[i].term == c.nodes[i].term ==>
              Final(c, acts).nodes[i].role.Leader? && c.nodes[i].log <= Final(c, acts).nodes[i].log
    decreases |acts|
  {
    hide VoteInv;
    hide Next;
    hide Possible;
    if acts != [] {
      var d := Next(c, acts[0]);
      assert Enabled(c, acts[0]) && Runs(d, acts[1..]) && NoRestarts(acts[1..]);
      StepKeepsVotes(c, acts[0]);
      LeaderStep(c, acts[0], i);
      if d.nodes[i].term == c.nodes[i].term {
        LeaderAppendOnly(d, acts[1..], i);
      } else {
        TermsOnlyGrow(d, acts[1..], i);
      }
    }
  }

  lemma OwnStep(n: Node, op: Op)
    requires CallOk(n, op)
    ensures var n' := Apply(n, op);
      n.term <= n'.term && (n.role.Leader? && n'.term == n.term ==> n'.role.Leader? && n.log <= n'.log)
  {
    hide Apply;
    hide NodeOk;
    hide MaySend;
    ApplyVotes(n, op);
    ApplyRole(n, op);
    ApplyReplicates(n, op);
    StepFacts(n, op, Apply(n, op));
  }

  lemma DoStep(c: Cluster, j: nat, op: Op, i: nat)
    requires Shape(c) && SamePeers(c) && Enabled(c, Do(j, op)) && i in c.nodes
    ensures var d := Next(c, Do(j, op));
      i in d.nodes && (if i == j then d.nodes[i] == Apply(c.nodes[i], op) && CallOk(c.nodes[i], op) else d.nodes[i] == c.nodes[i])
  {
    hide Shape;
    hide SamePeers;
    hide Next;
    hide Apply;
    hide CallOk;
    DoMoves(c, j, op);
  }

  lemma QuietAction(c: Cluster, a: Action, i: nat)
    requires Enabled(c, a) && !a.Restart? && !a.Do? && i in c.nodes
    ensures var d := Next(c, a);
      i in d.nodes && (d.nodes[i] == c.nodes[i] || d.nodes[i] == Advance(c.nodes[i]))
  {
    hide NodeOk;
    hide Begun;
  }

  lemma LeaderStep(c: Cluster, a: Action, i: nat)
    requires VoteInv(c) && Enabled(c, a) && !a.Restart? && i in c.nodes
    ensures i in Next(c, a).nodes && c.nodes[i].term <= Next(c, a).nodes[i].term
    ensures c.nodes[i].role.Leader? && Next(c, a).nodes[i].term == c.nodes[i].term ==>
              Next(c, a).nodes[i].role.Leader? && c.nodes[i].log <= Next(c, a).nodes[i].log
  {
    hide VoteInv;
    hide Shape;
    hide SamePeers;
    hide Saved;
    hide Honoured;
    hide SingleVotes;
    hide LeadersElected;
    hide Apply;
    hide CallOk;
    hide Possible;
    hide Next;
    if a.Do? {
      VoteParts(c);
      DoStep(c, a.i, a.op, i);
      if i == a.i { OwnStep(c.nodes[i], a.op); }
    } else {
      QuietAction(c, a, i);
    }
  }

  lemma {:induction false} TermsOnlyGrow(c: Cluster, acts: seq<Action>, i: nat)
    requires VoteInv(c) && Runs(c, acts) && NoRestarts(acts) && i in c.nodes
    ensures i in Final(c, acts).nodes && c.nodes[i].term <= Final(c, acts).nodes[i].term
    decreases |acts|
  {
    hide VoteInv;
    hide Next;
    hide Possible;
    if acts != [] {
      var d := Next(c, acts[0]);
      assert Enabled(c, acts[0]) && Runs(d, acts[1..]) && NoRestarts(acts[1..]);
      StepKeepsVotes(c, acts[0]);
      LeaderStep(c, acts[0], i);
      TermsOnlyGrow(d, acts[1..], i);
    }
  }

  // ---------- commit evidence ----------

  /** A quorum each held, at some moment of term `t`, the leader's log through `i`. */
  ghost predicate Evidence(c: Cluster, t: nat, log: Log, i: nat, q: set<nat>) {
    IsMajority(q, c.nodes.Keys) && forall f :: f in q ==> Held(c.past, f, t, log, i)
  }

  /** A leader of term `t` had committed `i` and held the same entries up to it. */
  ghost predicate LeaderCommitted(c: Cluster, t: nat, log: Log, i: nat) {
    exists r :: r in c.past && r.role.Leader? && r.term == t && i <= r.commit && Agree(r.log, log, i + 1)
  }

  lemma ReachedHeld(c: Cluster, n: Node)
    requires n.role.Leader? && n.id in c.nodes && c.nodes[n.id] == n && ProgressOk(c) && LeaderCommits(n) && 0 < n.commit
    requires n.prs.Keys == c.nodes.Keys
    ensures Evidence(c, n.term, n.log, n.commit, Reached(n.prs, n.commit))
  {
    hide Held;
    var q := Reached(n.prs, n.commit);
    assert |n.prs| == |n.prs.Keys|;
    forall f | f in q ensures Held(c.past, f, n.term, n.log, n.commit) {
      assert PeerOk(c, n, f, n.prs[f]);
      HeldLess(c.past, f, n.term, n.log, n.prs[f].match_, n.commit);
    }
  }

  lemma FollowerEvidence(c: Cluster, i: nat, op: Op, c': Cluster)
    requires TopsOk(c) && PastAnchored(c) && MessagesOk(c) && Move(c, i, op, c')
    requires op.Receive? && FollowerCommits(c.nodes[i], op.m, c'.nodes[i])
    ensures LeaderCommitted(c', c'.nodes[i].term, c'.nodes[i].log, c'.nodes[i].commit)
  {
    var n, n' := c.nodes[i], c'.nodes[i];
    assert InFlight(c, op.m) && AppOk(c, op.m);
    var top := c.tops[op.m.term];
    assert TopOk(c, op.m.term, top);
    hide MessagesOk;
    FittedIsPrefix(c, n, op.m, n');
    assert top in c'.past && Agree(top.log, n'.log, n'.commit + 1);
  }

  /** When a leader's commit index advances, its entry there is of its own term and a
      quorum held its log that far in that term; when a follower's does, a leader of the
      follower's term had committed that far with the same entries. */
  lemma CommitEvidence(c: Cluster, acts: seq<Action>, i: nat, op: Op)
    requires Initial(c) && Runs(c, acts) && NoRestarts(acts) && Enabled(Final(c, acts), Do(i, op))
    ensures var d := Final(c, acts); var e := Next(d, Do(i, op));
      i in e.nodes && d.nodes[i].commit <= e.nodes[i].commit &&
      var n := e.nodes[i];
      n.commit > d.nodes[i].commit ==>
        && n.commit < |n.log|
        && (n.role.Leader? ==> n.log[n.commit].term == n.term && exists q :: Evidence(e, n.term, n.log, n.commit, q))
        && (!n.role.Leader? ==> LeaderCommitted(e, n.term, n.log, n.commit))
  {
    hide Initial;
    hide Runs;
    hide Final;
    ReachableLogs(c, acts);
    CommitStepEvidence(Final(c, acts), i, op);
  }

  lemma CommitStepEvidence(d: Cluster, i: nat, op: Op)
    requires VoteInv(d) && LogInv(d) && Enabled(d, Do(i, op))
    ensures var e := Next(d, Do(i, op));
      i in e.nodes && d.nodes[i].commit <= e.nodes[i].commit &&
      var n := e.nodes[i];
      n.commit > d.nodes[i].commit ==>
        && n.commit < |n.log|
        && (n.role.Leader? ==> n.log[n.commit].term == n.term && exists q :: Evidence(e, n.term, n.log, n.commit, q))
        && (!n.role.Leader? ==> LeaderCommitted(e, n.term, n.log, n.commit))
  {
    hide VoteInv;
    hide LogInv;
    hide Shape;
    hide SamePeers;
    hide Saved;
    hide Honoured;
    hide SingleVotes;
    hide LeadersElected;
    hide TopsOk;
    hide PastAnchored;
    hide MessagesOk;
    hide ProgressOk;
    hide Next;
    hide Apply;
    hide Sends;
    hide CallOk;
    hide VoteStep;
    hide RoleStep;
    hide LogStep;
    hide ProgressStep;
    hide AnswerStep;
    hide Evidence;
    hide LeaderCommitted;
    hide IsQuorumMatch;
    DoKeepsVotes(d, i, op);
    DoKeepsLogs(d, i, op);
    var e := Next(d, Do(i, op));
    VoteParts(d);
    VoteParts(e);
    LogParts(d);
    LogParts(e);
    DoIsMove(d, i, op);
    PeersOf(e, i);
    var n, n' := d.nodes[i], e.nodes[i];
    assert CommitStep(n, op, n');
    if n'.commit > n.commit {
      if LeaderCommits(n') { ReachedHeld(e, n'); } else { FollowerEvidence(d, i, op, e); }
    }
  }

  lemma LogParts(c: Cluster)
    requires LogInv(c)
    ensures TopsOk(c) && PastAnchored(c) && MessagesOk(c) && ProgressOk(c)
  {}
}
