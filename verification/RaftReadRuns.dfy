/** ReadIndex freshness over every run, restarts included. */
module RaftReadRuns {
  import opened RaftNode
  import opened RaftCluster
  import opened RaftElection
  import opened RaftMessages
  import opened RaftVotes
  import opened RaftVoteRuns
  import opened RaftReadFacts
  import opened RaftLogs
  import opened RaftReads
  import opened RaftReadSteps

  // ---------- calls ----------

  lemma NodeReadMove(n: Node, n': Node)
    requires VoteStep(n, n')
    ensures n'.id == n.id && n.term <= n'.term && forall f :: f in n.prs ==> f in n'.prs
  {}

  lemma RecordedExtends(c: Cluster, i: nat, op: Op, c': Cluster)
    requires RoundsOk(c) && StartsOk(c) && i in c.nodes && i in c'.nodes && Recorded(c, i, c'.nodes[i], c') && c'.net == c.net
    requires ReadStep(c.nodes[i], op, c'.nodes[i])
    requires forall j :: j in c.used ==> j in c'.used && c.used[j] <= c'.used[j]
    requires op.StartRead? ==> i in c.used && op.id !in c.used[i]
    ensures Extends(c, c')
  {
    hide ReadStep;
    hide Begun;
    hide StartOk;
    hide SavedSince;
    hide RoundOk;
    forall j, r | HasStart(c, j, r) ensures HasStart(c', j, r) && StartAt(c', j, r) == StartAt(c, j, r) {
      if j == i && r in Begun(c.nodes[i], c'.nodes[i]) {
        BegunFrom(c.nodes[i], op, c'.nodes[i], r);
        NotBegunBefore(c, i, op, r);
      }
    }
  }

  lemma DoIsReadMove(c: Cluster, i: nat, op: Op)
    requires Shape(c) && SamePeers(c) && RoundsOk(c) && StartsOk(c) && Enabled(c, Do(i, op))
    ensures ReadMove(c, i, op, Next(c, Do(i, op))) && CallOk(c.nodes[i], op)
    ensures Next(c, Do(i, op)).nodes[i] == Apply(c.nodes[i], op) && c.nodes[i].term <= Apply(c.nodes[i], op).term
  {
    hide Shape;
    hide SamePeers;
    hide StartsOk;
    hide Apply;
    hide Next;
    hide CallOk;
    hide VoteStep;
    hide Recorded;
    hide Extends;
    hide RoundOk;
    hide ReadStep;
    var n := c.nodes[i];
    DoMoves(c, i, op);
    DoRecords(c, i, op);
    ShapeOf(c, i);
    ApplyVotes(n, op);
    ApplyReads(n, op);
    NodeReadMove(n, Apply(n, op));
    RecordedExtends(c, i, op, Next(c, Do(i, op)));
  }

  lemma SavedBelow(c: Cluster, i: nat)
    requires Shape(c) && Saved(c) && i in c.nodes
    ensures i in c.durable && c.durable[i].term <= c.nodes[i].term
  {
    hide NodeShape;
    hide MessageShape;
    assert SavedAt(c.nodes[i], c.durable[i], i in c.ready);
  }

  lemma OutboxFrom(c: Cluster, i: nat)
    requires Shape(c) && i in c.nodes
    ensures forall x :: x in c.nodes[i].msgs ==> x.from == i
  {
    ShapeOf(c, i);
  }

  lemma MessageEnds(c: Cluster, x: Message)
    requires Shape(c) && x in c.net
    ensures x.from in c.nodes && x.to in c.nodes && x.from != x.to
  {
    assert MessageShape(c, x);
  }

  lemma NodeBasics(c: Cluster, i: nat)
    requires Shape(c) && i in c.nodes
    ensures 0 !in c.nodes[i].rounds && c.nodes[i] in c.past
  {
    assert NodeShape(c, i, c.nodes[i]);
  }

  lemma AloneReceivesNothing(c: Cluster, i: nat, op: Op)
    requires Shape(c) && SamePeers(c) && i in c.nodes && |c.nodes.Keys| == 1
    requires op.Receive? ==> op.m in c.net
    ensures !op.Receive? && |c.nodes[i].prs| == 1
  {
    hide Shape;
    hide SamePeers;
    PeersOf(c, i);
    assert |c.nodes[i].prs| == |c.nodes[i].prs.Keys|;
    if op.Receive? {
      MessageEnds(c, op.m);
      Alone(c.nodes.Keys, op.m.from, op.m.to);
    }
  }

  lemma DoKeepsAlone(c: Cluster, i: nat, op: Op)
    requires Shape(c) && SamePeers(c) && AloneOk(c) && Enabled(c, Do(i, op))
    ensures AloneOk(Next(c, Do(i, op)))
  {
    hide Shape;
    hide SamePeers;
    hide AloneOk;
    hide Apply;
    hide Next;
    hide CallOk;
    hide AloneStep;
    DoMoves(c, i, op);
    NodeBasics(c, i);
    if |c.nodes.Keys| == 1 {
      AloneReceivesNothing(c, i, op);
      ApplyAlone(c.nodes[i], op);
    }
    AloneStays(c, i, Next(c, Do(i, op)));
  }

  lemma DoKeepsReads(c: Cluster, i: nat, op: Op)
    requires VoteInv(c) && ReadInv(c) && Enabled(c, Do(i, op))
    ensures ReadInv(Next(c, Do(i, op)))
  {
    hide VoteInv;
    hide Shape;
    hide SamePeers;
    hide Saved;
    hide Honoured;
    hide SingleVotes;
    hide LeadersElected;
    hide RoundsOk;
    hide TagsOk;
    hide StartsOk;
    hide AloneOk;
    hide Apply;
    hide Next;
    hide CallOk;
    hide Sends;
    hide ReadStep;
    hide Recorded;
    hide Extends;
    hide NodeOk;
    hide ReadMove;
    DoKeepsVotes(c, i, op);
    VoteParts(c);
    var c' := Next(c, Do(i, op));
    VoteParts(c');
    DoIsReadMove(c, i, op);
    ApplySends(c.nodes[i], op);
    NodeBasics(c, i);
    SavedBelow(c, i);
    MoveIn(c, i, op, c');
    OutboxFrom(c', i);
    RoundsStep(c, i, op, c');
    StartsStep(c, i, op, c');
    TagsStep(c, i, op, c');
    DoKeepsAlone(c, i, op);
  }

  lemma MoveIn(c: Cluster, i: nat, op: Op, c': Cluster)
    requires ReadMove(c, i, op, c')
    ensures i in c'.nodes
  {}

  // ---------- other steps ----------

  ghost predicate Tidied(n: Node, n': Node) {
    n' == n.(msgs := n'.msgs, readStates := n'.readStates, pending := n'.pending)
  }

  /** Rounds survive when starts and asked ids are the same and the network only grows. */
  lemma RoundsSurvive(c: Cluster, c': Cluster)
    requires RoundsOk(c) && c'.starts == c.starts && c'.used == c.used && c.net <= c'.net
    requires forall j :: j in c'.nodes ==> j in c.nodes && (c'.nodes[j].rounds == map[] || Tidied(c.nodes[j], c'.nodes[j]))
    ensures RoundsOk(c')
  {
    hide Backed;
    forall j, r | j in c'.nodes && r in c'.nodes[j].rounds ensures RoundOk(c', j, c'.nodes[j], r) {
      assert RoundOk(c, j, c.nodes[j], r);
      RoundStays(c, c', j, c.nodes[j], c'.nodes[j], r);
    }
  }

  lemma TagsSurvive(c: Cluster, c': Cluster)
    requires TagsOk(c) && c'.starts == c.starts && (forall x :: InFlight(c', x) ==> InFlight(c, x))
    ensures TagsOk(c')
  {
    hide InFlight;
    forall x | InFlight(c', x) ensures TagOk(c', x) { assert TagOk(c, x); }
  }

  lemma StartsSurvive(c: Cluster, c': Cluster)
    requires StartsOk(c) && c'.starts == c.starts && c'.used == c.used && c'.nodes.Keys == c.nodes.Keys
    requires forall f :: f in c'.durable ==> f in c.durable && c.durable[f].term <= c'.durable[f].term
    ensures StartsOk(c')
  {
    hide StartOk;
    forall i, r | HasStart(c', i, r)
      ensures i in c'.used && r in c'.used[i] && r != 0
      ensures StartOk(StartAt(c', i, r), c'.nodes.Keys, i, r) && SavedSince(StartAt(c', i, r), c'.durable)
    {
      assert HasStart(c, i, r) && SavedSince(StartAt(c, i, r), c.durable);
    }
  }

  lemma SendKeepsReads(c: Cluster, i: nat, m: Message)
    requires Shape(c) && ReadInv(c) && Enabled(c, Send(i, m))
    ensures ReadInv(Next(c, Send(i, m)))
  {
    OutboxFrom(c, i);
    hide Shape;
    hide StartsOk;
    hide RoundOk;
    hide NodeOk;
    var c' := Next(c, Send(i, m));
    forall x | InFlight(c', x) ensures InFlight(c, x) {}
    TagsSurvive(c, c');
    hide TagsOk;
    RoundsSurvive(c, c');
    StartsSurvive(c, c');
  }

  lemma RetryKeepsReads(c: Cluster, i: nat)
    requires ReadInv(c) && Enabled(c, Retry(i))
    ensures ReadInv(Next(c, Retry(i)))
  {
    hide StartsOk;
    hide RoundsOk;
    hide NodeOk;
    var c' := Next(c, Retry(i));
    TagsSurvive(c, c');
    hide TagsOk;
    RoundsSurvive(c, c');
    StartsSurvive(c, c');
  }

  lemma PersistKeepsReads(c: Cluster, i: nat)
    requires Shape(c) && Saved(c) && ReadInv(c) && Enabled(c, Persist(i))
    ensures ReadInv(Next(c, Persist(i)))
  {
    SavedBelow(c, i);
    assert SavedAt(c.nodes[i], c.durable[i], i in c.ready);
    hide Shape;
    hide StartsOk;
    hide RoundsOk;
    hide TagsOk;
    hide NodeOk;
    var c' := Next(c, Persist(i));
    TagsSurvive(c, c');
    RoundsSurvive(c, c');
    StartsSurvive(c, c');
    AlonePersists(c, i, c');
  }

  lemma AlonePersists(c: Cluster, i: nat, c': Cluster)
    requires AloneOk(c) && i in c.nodes && c'.nodes == c.nodes && c'.past == c.past && i in c.durable && i in c'.durable
    requires c'.durable == c.durable[i := c'.durable[i]] && c.durable[i].term <= c'.durable[i].term == c.nodes[i].term
    ensures AloneOk(c')
  {
    if |c.nodes.Keys| == 1 {
      forall j | j in c'.nodes ensures j in c'.durable && AloneAt(c', c'.nodes[j], c'.durable[j]) {
        NobodyElse(c.nodes.Keys, i, j);
        assert AloneAt(c, c.nodes[i], c.durable[i]);
      }
    }
  }

  /** Finishing a Ready or restarting starts no round. */
  lemma ClearedReads(c: Cluster, i: nat, c': Cluster)
    requires Shape(c) && RoundsOk(c) && TagsOk(c) && StartsOk(c) && Cleared(c, i, c')
    requires c'.starts == c.starts && c'.used == c.used && c'.nodes[i].msgs == {}
    requires c'.nodes[i].rounds == map[] || Tidied(c.nodes[i], c'.nodes[i])
    ensures RoundsOk(c') && TagsOk(c') && StartsOk(c')
  {
    hide StartsOk;
    hide RoundsOk;
    forall x | InFlight(c', x) ensures InFlight(c, x) {}
    TagsSurvive(c, c');
    hide TagsOk;
    hide Shape;
    assert c'.nodes.Keys == c.nodes.Keys;
    RoundsSurvive(c, c');
    StartsSurvive(c, c');
  }

  lemma SameStarts(c: Cluster, i: nat, n': Node)
    requires i in c.nodes && i in c.starts && Begun(c.nodes[i], n') == {}
    ensures Changed(c, i, n').starts == c.starts
  {
    hide Begun;
    assert c.starts[i] + (map r | r in Begun(c.nodes[i], n') :: Start(n', c.net, c.past, c.durable)) == c.starts[i];
  }

  lemma DoneKeepsReads(c: Cluster, i: nat)
    requires Shape(c) && ReadInv(c) && Enabled(c, Done(i))
    ensures ReadInv(Next(c, Done(i)))
  {
    hide Shape;
    hide RoundsOk;
    hide TagsOk;
    hide StartsOk;
    hide AloneOk;
    hide NodeOk;
    hide Begun;
    NodeBasics(c, i);
    var n' := Advance(c.nodes[i]);
    NoneBegun(c.nodes[i], n');
    SameStarts(c, i, n');
    DoneClears(c, i);
    var c' := Next(c, Done(i));
    assert c'.starts == c.starts && c'.used == c.used;
    hide Next;
    hide Changed;
    ClearedReads(c, i, c');
    AloneStays(c, i, c');
  }

  lemma RestartKeepsReads(c: Cluster, i: nat, log: seq<LogEntry>)
    requires Shape(c) && ReadInv(c) && Enabled(c, Restart(i, log))
    ensures ReadInv(Next(c, Restart(i, log)))
  {
    hide Shape;
    hide RoundsOk;
    hide TagsOk;
    hide StartsOk;
    hide AloneOk;
    hide LogOk;
    hide NodeOk;
    hide Begun;
    NodeBasics(c, i);
    var n := c.nodes[i];
    var n' := Boot(i, n.prs.Keys, c.durable[i], log, n.electionTimeout, n.heartbeatTimeout);
    NoneBegun(n, n');
    SameStarts(c, i, n');
    RestartClears(c, i, log);
    var c' := Next(c, Restart(i, log));
    assert c'.starts == c.starts && c'.used == c.used;
    hide Next;
    hide Changed;
    ClearedReads(c, i, c');
    AloneRestarts(c, i, c');
  }

  lemma AloneRestarts(c: Cluster, i: nat, c': Cluster)
    requires AloneOk(c) && Cleared(c, i, c') && i in c.durable && c'.nodes[i].role.Follower? && c'.nodes[i].term == c.durable[i].term
    ensures AloneOk(c')
  {
    assert c'.nodes.Keys == c.nodes.Keys;
    if |c'.nodes.Keys| == 1 {
      forall j | j in c'.nodes ensures j in c'.durable && AloneAt(c', c'.nodes[j], c'.durable[j]) {
        NobodyElse(c.nodes.Keys, i, j);
        assert AloneAt(c, c.nodes[i], c.durable[i]);
      }
    }
  }

  lemma StepKeepsReads(c: Cluster, a: Action)
    requires VoteInv(c) && ReadInv(c) && Enabled(c, a)
    ensures ReadInv(Next(c, a))
  {
    hide VoteInv;
    hide ReadInv;
    hide Shape;
    hide SamePeers;
    hide Saved;
    hide Honoured;
    hide SingleVotes;
    hide LeadersElected;
    hide Possible;
    hide Next;
    VoteParts(c);
    match a
    case Do(i, op) => DoKeepsReads(c, i, op);
    case Persist(i) => PersistKeepsReads(c, i);
    case Send(i, m) => SendKeepsReads(c, i, m);
    case Done(i) => DoneKeepsReads(c, i);
    case Retry(i) => RetryKeepsReads(c, i);
    case Restart(i, log) => RestartKeepsReads(c, i, log);
  }

  lemma {:induction false} RunKeepsReads(c: Cluster, acts: seq<Action>)
    requires VoteInv(c) && ReadInv(c) && Runs(c, acts)
    ensures VoteInv(Final(c, acts)) && ReadInv(Final(c, acts))
    decreases |acts|
  {
    hide VoteInv;
    hide ReadInv;
    hide Next;
    hide Possible;
    if acts != [] {
      StepKeepsVotes(c, acts[0]);
      StepKeepsReads(c, acts[0]);
      RunKeepsReads(Next(c, acts[0]), acts[1..]);
    }
  }

  // ---------- freshness ----------

  /** `q` is a majority that confirmed round `r` of node `i` in term `t` after its start. */
  ghost predicate Confirmed(c: Cluster, s: Start, q: set<nat>, i: nat, r: nat, t: nat) {
    && IsMajority(q, c.nodes.Keys) && i in q
    && forall f :: f in q && f != i ==> Acked(c.net, s, f, i, r, t)
  }

  /** Whoever confirmed the round had saved no later term when it started. */
  lemma ConfirmerWasBehind(c: Cluster, s: Start, f: nat, i: nat, r: nat, t: nat)
    requires TagsOk(c) && HasStart(c, i, r) && StartAt(c, i, r) == s && r != 0 && Acked(c.net, s, f, i, r, t)
    ensures f in s.durable && s.durable[f].term <= t
  {
    var x :| x in c.net && x !in s.net && x.AppResp? && x.from == f && x.to == i && x.readId == r && x.term == t;
    assert InFlight(c, x) && TagOk(c, x);
  }

  /** A confirmed round saw every leader there had been when it started. */
  lemma NoLaterLeader(c: Cluster, s: Start, q: set<nat>, i: nat, r: nat, a: Node)
    requires TagsOk(c) && HasStart(c, i, r) && StartAt(c, i, r) == s && r != 0
    requires StartOk(s, c.nodes.Keys, i, r) && Confirmed(c, s, q, i, r, s.node.term) && a in s.past && a.role.Leader?
    ensures a.term <= s.node.term
  {
    hide Acked;
    hide TagsOk;
    assert Known(s, c.nodes.Keys, a);
    if !(|c.nodes.Keys| == 1 && a.term <= s.node.term) {
      var p :| IsMajority(p, c.nodes.Keys) && AllAtLeast(s.durable, p, a.term);
      var f := MajoritiesMeet(p, q, c.nodes.Keys);
      if f != i { ConfirmerWasBehind(c, s, f, i, r, s.node.term); }
    }
  }

  lemma FinishedIsConfirmed(d: Cluster, e: Cluster, i: nat, op: Op, x: ReadState)
    requires RoundsOk(d) && TagsOk(d) && StartsOk(d) && ReadMove(d, i, op, e) && HasStart(e, i, x.id)
    requires d.nodes[i].prs.Keys == d.nodes.Keys && d.nodes[i].role.Leader? && e.nodes[i].term == d.nodes[i].term
    requires Finished(d.nodes[i], op, e.nodes[i], x) && (x.id in Begun(d.nodes[i], e.nodes[i]) <==> x.id !in Started(d.nodes[i]))
    ensures var s := StartAt(e, i, x.id);
      s.node.term == e.nodes[i].term && s.node.commit == x.index && exists q :: Confirmed(e, s, q, i, x.id, s.node.term)
  {
    hide TagsOk;
    hide StartsOk;
    hide ReadStep;
    hide Acked;
    hide Begun;
    var n, r := d.nodes[i], x.id;
    var s := StartAt(e, i, r);
    assert |n.prs| == |n.prs.Keys| && e.nodes.Keys == d.nodes.Keys;
    if r in Started(n) {
      assert RoundOk(d, i, n, r);
      AckIsLate(d, i, n, op, r);
      var q := n.rounds[r].acks + {op.m.from};
      assert Confirmed(e, s, q, i, r, s.node.term);
    } else {
      assert i in n.prs.Keys;
      assert Confirmed(e, s, {i}, i, r, s.node.term);
    }
  }

  /** When a read round completes, its index is the leader's commit index at its start, an
      entry of the leader's term was committed by then, a majority has answered it since
      in that term, and until then nobody had ever been leader of a later term. */
  lemma ReadIndexFreshness(c: Cluster, acts: seq<Action>, i: nat, op: Op, x: ReadState)
    requires Initial(c) && Runs(c, acts) && Enabled(Final(c, acts), Do(i, op))
    requires x !in Final(c, acts).nodes[i].readStates
    requires var e := Next(Final(c, acts), Do(i, op)); i in e.nodes && x in e.nodes[i].readStates
    ensures var e := Next(Final(c, acts), Do(i, op));
      && HasStart(e, i, x.id)
      && var s := StartAt(e, i, x.id);
      && s.node.id == i && s.node.role.Leader? && s.node.term == e.nodes[i].term
      && s.node.commit == x.index && CommittedInTerm(s.node)
      && (exists q :: Confirmed(e, s, q, i, x.id, s.node.term))
      && (forall a :: a in s.past && a.role.Leader? ==> a.term <= s.node.term)
  {
    hide Initial;
    hide Runs;
    hide Final;
    hide VoteInv;
    hide ReadInv;
    InitialVotes(c);
    InitialReads(c);
    RunKeepsReads(c, acts);
    FreshStep(Final(c, acts), i, op, x);
  }

  lemma FreshStep(d: Cluster, i: nat, op: Op, x: ReadState)
    requires VoteInv(d) && ReadInv(d) && Enabled(d, Do(i, op))
    requires x !in d.nodes[i].readStates
    requires var e := Next(d, Do(i, op)); i in e.nodes && x in e.nodes[i].readStates
    ensures var e := Next(d, Do(i, op));
      && HasStart(e, i, x.id)
      && var s := StartAt(e, i, x.id);
      && s.node.id == i && s.node.role.Leader? && s.node.term == e.nodes[i].term
      && s.node.commit == x.index && CommittedInTerm(s.node)
      && (exists q :: Confirmed(e, s, q, i, x.id, s.node.term))
      && (forall a :: a in s.past && a.role.Leader? ==> a.term <= s.node.term)
  {
    hide VoteInv;
    hide Shape;
    hide SamePeers;
    hide Saved;
    hide Honoured;
    hide SingleVotes;
    hide LeadersElected;
    hide RoundsOk;
    hide TagsOk;
    hide StartsOk;
    hide AloneOk;
    hide Apply;
    hide Next;
    hide CallOk;
    hide CommittedInTerm;
    hide Confirmed;
    DoKeepsReads(d, i, op);
    VoteParts(d);
    PeersOf(d, i);
    DoIsReadMove(d, i, op);
    var e := Next(d, Do(i, op));
    FinishedStarted(d, i, op, e, x);
    FinishedIsConfirmed(d, e, i, op, x);
    var s := StartAt(e, i, x.id);
    StartIsOk(e, i, x.id);
    var q :| Confirmed(e, s, q, i, x.id, s.node.term);
    forall a | a in s.past && a.role.Leader? ensures a.term <= s.node.term { NoLaterLeader(e, s, q, i, x.id, a); }
  }

  lemma StartIsOk(c: Cluster, i: nat, r: nat)
    requires StartsOk(c) && HasStart(c, i, r)
    ensures StartOk(StartAt(c, i, r), c.nodes.Keys, i, r) && r != 0
  {
    hide StartOk;
    hide SavedSince;
  }

  lemma FinishedStarted(d: Cluster, i: nat, op: Op, e: Cluster, x: ReadState)
    requires RoundsOk(d) && ReadMove(d, i, op, e) && x in e.nodes[i].readStates && x !in d.nodes[i].readStates
    ensures d.nodes[i].role.Leader? && e.nodes[i].term == d.nodes[i].term && Finished(d.nodes[i], op, e.nodes[i], x)
    ensures HasStart(e, i, x.id) && (x.id in Begun(d.nodes[i], e.nodes[i]) <==> x.id !in Started(d.nodes[i]))
  {
    hide CommittedInTerm;
    hide RoundStep;
    var n, n' := d.nodes[i], e.nodes[i];
    assert ResultStep(n, op, n', x);
    assert x.id in IdsOf(n'.readStates - n.readStates);
    if x.id in Started(n) { assert RoundOk(d, i, n, x.id); }
  }
}
