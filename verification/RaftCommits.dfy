/** Terms in logs never fall and never exceed the node's own, and a leader has committed
    every entry of its term that a majority is known to hold. */
module RaftCommits {
  import opened RaftNode
  import opened RaftCluster
  import opened RaftVotes
  import opened RaftVoteRuns
  import opened RaftLogFacts
  import opened RaftLogs
  import opened RaftLogSteps
  import opened RaftLogRuns
  import opened RaftPrompt
  import opened RaftLaws

  // ---------- terms in logs ----------

  ghost predicate Rising(log: Log) { forall i, j :: 0 <= i < j < |log| ==> log[i].term <= log[j].term }

  ghost predicate TermsUp(n: Node) { n.log != [] && Rising(n.log) && n.log[|n.log| - 1].term <= n.term }

  ghost predicate TermsInv(c: Cluster) { forall a :: a in c.past ==> TermsUp(a) }

  lemma TookRises(log: Log, m: Message, top: Log)
    requires Rising(log) && Rising(top) && m.App? && SliceOf(m, top) && m.entries != []
    requires m.logIndex < |log| && log[m.logIndex].term == m.logTerm
    ensures var log' := log[..m.logIndex + 1] + m.entries;
      Rising(log') && exists k :: 0 <= k < |top| && log'[|log'| - 1] == top[k]
  {
    var p := m.logIndex;
    var log' := log[..p + 1] + m.entries;
    forall i | p < i < |log'| ensures log'[i] == top[i] { assert log'[i] == m.entries[i - p - 1]; }
    assert log'[|log'| - 1] == top[|log'| - 1];
    forall i, j | 0 <= i < j < |log'| ensures log'[i].term <= log'[j].term {
      if j <= p {
      } else if i <= p {
        assert log'[i] == log[i] && (i == p || log[i].term <= log[p].term);
        assert top[p].term <= top[j].term;
      }
    }
  }

  lemma GrewRises(n: Node, n': Node)
    requires TermsUp(n) && Grew(n, n') && n.term <= n'.term
    ensures TermsUp(n')
  {
    var last := |n.log| - 1;
    forall i, j | 0 <= i < j < |n'.log| ensures n'.log[i].term <= n'.log[j].term {
      assert n'.log[i] == n'.log[..|n.log|][i] == n.log[i];
      assert i == last || n.log[i].term <= n.log[last].term;
      if j < |n.log| { assert n'.log[j] == n'.log[..|n.log|][j] == n.log[j]; }
    }
  }

  lemma CutRises(n: Node, m: Message, n': Node)
    requires TermsUp(n) && Cut(n, m, n') && n.term <= n'.term
    ensures TermsUp(n')
  {
    var last := |n.log| - 1;
    assert forall k :: 0 <= k < |n'.log| ==> n'.log[k] == n.log[k];
    assert n.log[|n'.log| - 1].term <= n.log[last].term;
  }

  lemma TookUp(c: Cluster, n: Node, m: Message, n': Node)
    requires TermsInv(c) && TopsOk(c) && MessagesOk(c) && TermsUp(n) && Took(n, m, n') && m in c.net
    ensures TermsUp(n')
  {
    hide Anchored;
    hide LogOk;
    hide Synced;
    assert InFlight(c, m) && AppOk(c, m);
    var top := c.tops[m.term];
    assert TopOk(c, m.term, top) && TermsUp(top);
    TookRises(n.log, m, top.log);
    var k :| 0 <= k < |top.log| && n'.log[|n'.log| - 1] == top.log[k];
    assert k == |top.log| - 1 || top.log[k].term <= top.log[|top.log| - 1].term;
  }

  lemma MoveRises(c: Cluster, i: nat, op: Op, c': Cluster)
    requires TermsInv(c) && TopsOk(c) && PastAnchored(c) && MessagesOk(c) && Move(c, i, op, c')
    requires LogStep(c.nodes[i], op, c'.nodes[i])
    ensures TermsInv(c')
  {
    hide Anchored;
    hide Grew;
    hide Cut;
    hide Took;
    hide LogOk;
    hide MessageOk;
    hide TopsOk;
    hide MessagesOk;
    hide Rising;
    var n, n' := c.nodes[i], c'.nodes[i];
    assert TermsUp(n);
    if Kept(n, n') {
    } else if Grew(n, n') {
      GrewRises(n, n');
    } else if Cut(n, op.m, n') {
      CutRises(n, op.m, n');
    } else {
      TookUp(c, n, op.m, n');
    }
  }

  lemma DoKeepsTerms(c: Cluster, i: nat, op: Op)
    requires TermsInv(c) && VoteInv(c) && LogInv(c) && Enabled(c, Do(i, op))
    ensures TermsInv(Next(c, Do(i, op)))
  {
    VoteParts(c);
    LogParts(c);
    hide VoteInv;
    hide LogInv;
    hide Shape;
    hide SamePeers;
    hide TopsOk;
    hide PastAnchored;
    hide MessagesOk;
    hide TermsInv;
    hide Next;
    hide Apply;
    hide Move;
    hide LogStep;
    hide ProgressStep;
    hide CommitStep;
    hide AnswerStep;
    DoIsMove(c, i, op);
    MoveRises(c, i, op, Next(c, Do(i, op)));
  }

  lemma StepKeepsTerms(c: Cluster, a: Action)
    requires TermsInv(c) && VoteInv(c) && LogInv(c) && Enabled(c, a) && !a.Restart?
    ensures TermsInv(Next(c, a))
  {
    VoteParts(c);
    LogParts(c);
    hide VoteInv;
    hide LogInv;
    hide Shape;
    hide TopsOk;
    hide MessagesOk;
    hide Rising;
    hide Cleared;
    match a
    case Do(i, op) => hide TermsInv; hide Next; DoKeepsTerms(c, i, op);
    case Persist(i) =>
    case Send(i, m) =>
    case Done(i) => DoneTerms(c, i);
    case Retry(i) =>
  }

  lemma DoneTerms(c: Cluster, i: nat)
    requires TermsInv(c) && PastAnchored(c) && Enabled(c, Done(i))
    ensures TermsInv(Next(c, Done(i)))
  {
    hide Rising;
    hide Next;
    hide NodeOk;
    hide Anchored;
    DoneClears(c, i);
    assert TermsUp(c.nodes[i]);
  }

  lemma InitialTerms(c: Cluster)
    requires Initial(c)
    ensures TermsInv(c)
  {
    forall a | a in c.past ensures TermsUp(a) { assert InitialNode(c, a.id, c.nodes[a.id]); }
  }

  lemma {:induction false} RunKeepsTerms(c: Cluster, acts: seq<Action>)
    requires TermsInv(c) && VoteInv(c) && LogInv(c) && Runs(c, acts) && NoRestarts(acts)
    ensures TermsInv(Final(c, acts))
    decreases |acts|
  {
    hide TermsInv;
    hide VoteInv;
    hide LogInv;
    hide Next;
    hide Possible;
    if acts != [] {
      StepKeepsTerms(c, acts[0]);
      StepKeepsVotes(c, acts[0]);
      StepKeepsLogs(c, acts[0]);
      RunKeepsTerms(Next(c, acts[0]), acts[1..]);
    }
  }

  lemma LastTerm(c: Cluster, acts: seq<Action>, a: Node)
    requires Initial(c) && Runs(c, acts) && NoRestarts(acts) && a in Final(c, acts).past
    ensures TermsUp(a)
  {
    hide Initial;
    hide Runs;
    hide Final;
    hide VoteInv;
    hide LogInv;
    InitialTerms(c);
    InitialVotes(c);
    InitialLogs(c);
    RunKeepsTerms(c, acts);
  }

  /** In every log any node ever had, terms never fall and never exceed the node's. */
  lemma LogTermsRise(c: Cluster, acts: seq<Action>, a: Node, i: nat, j: nat)
    requires Initial(c) && Runs(c, acts) && NoRestarts(acts) && a in Final(c, acts).past && i <= j < |a.log|
    ensures a.log[i].term <= a.log[j].term <= a.term
  {
    hide Initial;
    hide Runs;
    hide Final;
    LastTerm(c, acts, a);
    assert j == |a.log| - 1 || a.log[j].term <= a.log[|a.log| - 1].term;
  }

  // ---------- commits ----------

  lemma QuorumMatchIn(c: Cluster, n: Node, q: nat)
    requires n.role.Leader? && n.id in c.nodes && c.nodes[n.id] == n && ProgressOk(c) && LogOk(n.log) && IsQuorumMatch(n.prs, q)
    ensures q < |n.log|
  {
    hide Held;
    assert Reached(n.prs, q) != {};
    var f :| f in Reached(n.prs, q);
    assert PeerOk(c, n, f, n.prs[f]);
    if n.prs[f].match_ != 0 { HeldBound(c.past, f, n.term, n.log, n.prs[f].match_); }
  }

  lemma ReachedIsBelow(prs: map<nat, Progress>, i: nat, q: nat)
    requires IsQuorumMatch(prs, q) && |Reached(prs, i)| >= |prs| / 2 + 1
    ensures i <= q
  {
    if q < i { ReachedShrinks(prs, q + 1, i); }
  }

  lemma SettledCommits(c: Cluster, n: Node, k: nat)
    requires n.role.Leader? && n.id in c.nodes && c.nodes[n.id] == n && ProgressOk(c) && NodeOk(n)
    requires Settled(n) && TermsUp(n)
    requires k < |n.log| && n.log[k].term == n.term && |Reached(n.prs, k)| >= |n.prs| / 2 + 1
    ensures k <= n.commit
  {
    hide ProgressOk;
    hide IsQuorumMatch;
    var q := QuorumMatch(n.prs);
    QuorumMatchIn(c, n, q);
    ReachedIsBelow(n.prs, k, q);
    assert k == q || n.log[k].term <= n.log[q].term;
    assert q == |n.log| - 1 || n.log[q].term <= n.log[|n.log| - 1].term;
  }

  /** Leader `n` knows a majority of the peers to hold its entry `k`, of its own term. */
  ghost predicate MajorityHas(n: Node, k: nat) {
    && n.role.Leader? && k < |n.log| && n.log[k].term == n.term
    && |set f | f in n.prs && n.prs[f].match_ >= k| >= |n.prs| / 2 + 1
  }

  lemma CommittedAt(d: Cluster, i: nat, k: nat)
    requires Shape(d) && ProgressOk(d) && i in d.nodes && Prompt(d.nodes[i]) && TermsUp(d.nodes[i]) && MajorityHas(d.nodes[i], k)
    ensures k <= d.nodes[i].commit
  {
    ShapeOf(d, i);
    hide Shape;
    hide ProgressOk;
    hide Settled;
    hide TermsUp;
    var n := d.nodes[i];
    assert (set f | f in n.prs && n.prs[f].match_ >= k) == Reached(n.prs, k);
    SettledCommits(d, n, k);
  }

  lemma InPast(d: Cluster, i: nat)
    requires Shape(d) && i in d.nodes
    ensures d.nodes[i] in d.past
  {
    ShapeOf(d, i);
  }

  /** In every reachable state a leader has committed each entry of its term that it knows
      a majority of the peers to hold. */
  lemma MajorityIsCommitted(c: Cluster, acts: seq<Action>, i: nat, k: nat)
    requires Initial(c) && Runs(c, acts) && NoRestarts(acts) && i in Final(c, acts).nodes
    requires MajorityHas(Final(c, acts).nodes[i], k)
    ensures k <= Final(c, acts).nodes[i].commit
  {
    hide Initial;
    hide Runs;
    hide Final;
    hide MajorityHas;
    hide Prompt;
    hide TermsUp;
    hide Shape;
    hide ProgressOk;
    var d := Final(c, acts);
    ReachableLogs(c, acts);
    VoteParts(d);
    LogParts(d);
    hide VoteInv;
    hide LogInv;
    InPast(d, i);
    AlwaysPrompt(c, acts, d.nodes[i]);
    LastTerm(c, acts, d.nodes[i]);
    CommittedAt(d, i, k);
  }

  // ---------- what a refusal costs ----------

  lemma RunIsLow(log: Log, index: nat, log': Log, k: nat)
    requires Rising(log) && index < |log| && CutBefore(log, index, log') && k <= index
    ensures k < |log'| <==> log[k].term != log[index].term
  {
    var first := |log'|;
    if k < first {
      assert k == first - 1 || log[k].term <= log[first - 1].term;
      assert log[first - 1].term <= log[index].term;
    }
  }

  /** A follower that cannot match an append cuts off the whole run of the conflicting term.
      It still holds what it has committed exactly if the conflict lies above its commit
      index and in another term than the entry there. */
  lemma CutKeepsCommittedIff(n: Node, m: Message)
    requires NodeOk(n) && Rising(n.log) && n.commit < |n.log| && !n.role.Leader?
    requires m.App? && m.term >= n.term && m.logIndex < |n.log| && n.log[m.logIndex].term != m.logTerm
    ensures n.commit < |Step(n, m).log| <==>
      n.commit < m.logIndex && n.log[n.commit].term != n.log[m.logIndex].term
  {
    AppendIsAnswered(n, m);
    hide Step;
    hide NodeOk;
    if n.commit <= m.logIndex { RunIsLow(n.log, m.logIndex, Step(n, m).log, n.commit); }
  }

  /** The committed entry at index 1 is lost to an append of a leader that holds it too. */
  lemma CommittedEntryIsCut() returns (n: Node, leader: Log, m: Message)
    ensures NodeOk(n) && Rising(n.log) && Rising(leader) && n.commit == 1 && Agree(n.log, leader, 2)
    ensures m.App? && m.term >= n.term && SliceOf(m, leader)
    ensures Step(n, m).commit == 1 && |Step(n, m).log| == 1
  {
    var e := LogEntry(1, []);
    var log: Log := [SENTINEL, e, e];
    leader := [SENTINEL, e, LogEntry(2, [])];
    n := Boot(1, {1, 2}, HardState(1, 0, 1), log, 10, 1);
    m := App(2, 1, 2, 2, 2, [], 1, 0);
    assert log[1..] == [e, e];
    AppendIsAnswered(n, m);
    hide Step;
    RunIsLow(log, 2, Step(n, m).log, 1);
    RunIsLow(log, 2, Step(n, m).log, 0);
  }
}
