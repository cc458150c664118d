/** Every step keeps the read invariant. */
module RaftReadSteps {
  import opened RaftNode
  import opened RaftCluster
  import opened RaftElection
  import opened RaftMessages
  import opened RaftVotes
  import opened RaftVoteRuns
  import opened RaftReadFacts
  import opened RaftLogs
  import opened RaftReads

  /** Starts and asked ids only accumulate; the network and what is saved only grow. */
  ghost predicate Extends(c: Cluster, c': Cluster) {
    && c.net <= c'.net
    && (forall i, r :: HasStart(c, i, r) ==> HasStart(c', i, r) && StartAt(c', i, r) == StartAt(c, i, r))
    && (forall j :: j in c.used ==> j in c'.used && c.used[j] <= c'.used[j])
  }

  // ---------- rounds ----------

  lemma StillAcked(net: set<Message>, net': set<Message>, s: Start, f: nat, i: nat, r: nat, t: nat)
    requires net <= net' && Acked(net, s, f, i, r, t)
    ensures Acked(net', s, f, i, r, t)
  {
    var x :| x in net && x !in s.net && x.AppResp? && x.from == f && x.to == i && x.readId == r && x.term == t;
    assert x in net';
  }

  lemma StillBacked(net: set<Message>, net': set<Message>, s: Start, n: Node, n': Node, round: Round, i: nat, r: nat)
    requires net <= net' && Backed(net, s, n, round, i, r) && n'.term == n.term && (forall f :: f in n.prs ==> f in n'.prs)
    ensures Backed(net', s, n', round, i, r)
  {
    hide Acked;
    forall f | f in round.acks ensures f in n'.prs && (f != i ==> Acked(net', s, f, i, r, n.term)) {
      if f != i { StillAcked(net, net', s, f, i, r, n.term); }
    }
  }

  /** The same round in an extended cluster, where it has not started meanwhile. */
  lemma RoundStays(c: Cluster, c': Cluster, i: nat, n: Node, n': Node, r: nat)
    requires Extends(c, c') && r in n.rounds && r in n'.rounds && n'.rounds[r] == n.rounds[r] && RoundOk(c, i, n, r)
    requires n'.term == n.term && (forall f :: f in n.prs ==> f in n'.prs)
    requires !n.rounds[r].started ==> !HasStart(c', i, r)
    ensures RoundOk(c', i, n', r)
  {
    hide Backed;
    if n.rounds[r].started { StillBacked(c.net, c'.net, StartAt(c, i, r), n, n', n.rounds[r], i, r); }
  }

  lemma AckIsLate(c: Cluster, i: nat, n: Node, op: Op, r: nat)
    requires TagsOk(c) && StartsOk(c) && HasStart(c, i, r) && IsAck(n, op, r) && op.m in c.net && op.m.to == i
    ensures Acked(c.net, StartAt(c, i, r), op.m.from, i, r, n.term)
  {
    hide Known;
    hide SavedSince;
    hide TagsOk;
    assert StartOk(StartAt(c, i, r), c.nodes.Keys, i, r);
    assert op.m !in StartAt(c, i, r).net;
  }

  lemma AckedRoundOk(c: Cluster, c': Cluster, i: nat, n: Node, op: Op, n': Node, r: nat)
    requires Extends(c, c') && TagsOk(c) && StartsOk(c) && r in Started(n) && RoundOk(c, i, n, r)
    requires IsAck(n, op, r) && op.m in c.net && op.m.to == i && n'.term == n.term && (forall f :: f in n.prs ==> f in n'.prs)
    requires r in n'.rounds && n'.rounds[r] == n.rounds[r].(acks := n.rounds[r].acks + {op.m.from})
    ensures RoundOk(c', i, n', r)
  {
    hide TagsOk;
    hide StartsOk;
    hide Acked;
    var s := StartAt(c, i, r);
    AckIsLate(c, i, n, op, r);
    var round := n'.rounds[r];
    forall f | f in round.acks ensures f in n'.prs && (f != i ==> Acked(c'.net, s, f, i, r, n.term)) {
      if f != i { StillAcked(c.net, c'.net, s, f, i, r, n.term); }
    }
  }

  lemma StartedRoundOk(c: Cluster, c': Cluster, i: nat, n: Node, n': Node, r: nat)
    requires r in n'.rounds && n'.rounds[r] == Round(n'.commit, true, {i}) && i in n'.prs
    requires HasStart(c', i, r) && StartAt(c', i, r).node == n' && i in c'.used && r in c'.used[i]
    ensures RoundOk(c', i, n', r)
  {}

  /** All we need to know of a call to keep the read invariant. */
  ghost predicate ReadMove(c: Cluster, i: nat, op: Op, c': Cluster) {
    && i in c.nodes && i in c'.nodes && c'.nodes == c.nodes[i := c'.nodes[i]]
    && c'.net == c.net && c'.durable == c.durable && c'.past == c.past + {c'.nodes[i]}
    && Extends(c, c') && Recorded(c, i, c'.nodes[i], c')
    && c.nodes[i].id == i && c'.nodes[i].id == i && (forall f :: f in c.nodes[i].prs ==> f in c'.nodes[i].prs) && i in c.nodes[i].prs
    && ReadStep(c.nodes[i], op, c'.nodes[i])
    && (op.Receive? ==> op.m in c.net && op.m.to == i)
    && (op.StartRead? ==> i in c.used && op.id !in c.used[i] && i in c'.used && op.id in c'.used[i])
  }

  /** A round that starts now has not started before. */
  lemma NotBegunBefore(c: Cluster, i: nat, op: Op, r: nat)
    requires RoundsOk(c) && StartsOk(c) && i in c.nodes && MayStart(c.nodes[i], op, r)
    requires op.StartRead? ==> i in c.used && op.id !in c.used[i]
    ensures !HasStart(c, i, r)
  {
    hide StartOk;
    hide SavedSince;
    if r in Waiting(c.nodes[i]) { assert RoundOk(c, i, c.nodes[i], r); }
  }

  lemma OwnRoundOk(c: Cluster, i: nat, op: Op, c': Cluster, r: nat)
    requires RoundsOk(c) && TagsOk(c) && StartsOk(c) && ReadMove(c, i, op, c')
    requires c.nodes[i].role.Leader? && c'.nodes[i].role.Leader? && c'.nodes[i].term == c.nodes[i].term
    requires r in c'.nodes[i].rounds
    ensures RoundOk(c', i, c'.nodes[i], r)
  {
    hide TagsOk;
    hide StartsOk;
    hide Backed;
    hide CommittedInTerm;
    hide Finished;
    var n, n' := c.nodes[i], c'.nodes[i];
    assert RoundStep(n, op, n', r);
    if r in n.rounds { assert RoundOk(c, i, n, r); }
    hide RoundsOk;
    if r in n.rounds && n'.rounds[r] == n.rounds[r] {
      if !n.rounds[r].started { WaitingIsNotBegun(n, n', r); }
      RoundStays(c, c', i, n, n', r);
    } else if r in Started(n) && IsAck(n, op, r) {
      AckedRoundOk(c, c', i, n, op, n', r);
    } else if n'.rounds[r].started {
      assert r in Begun(n, n');
      StartedRoundOk(c, c', i, n, n', r);
    } else {
      WaitingIsNotBegun(n, n', r);
      NotUsedNotStarted(c, i, r);
    }
  }

  lemma NotUsedNotStarted(c: Cluster, i: nat, r: nat)
    requires StartsOk(c) && i in c.used && r !in c.used[i]
    ensures !HasStart(c, i, r)
  {
    hide StartOk;
    hide SavedSince;
  }

  lemma WaitingIsNotBegun(n: Node, n': Node, r: nat)
    requires r in n'.rounds && !n'.rounds[r].started
    requires forall x :: x in n'.readStates && x !in n.readStates ==> x.id !in n'.rounds
    ensures r !in Begun(n, n')
  {}

  lemma RoundsStep(c: Cluster, i: nat, op: Op, c': Cluster)
    requires RoundsOk(c) && TagsOk(c) && StartsOk(c) && ReadMove(c, i, op, c')
    ensures RoundsOk(c')
  {
    hide TagsOk;
    hide StartsOk;
    hide RoundOk;
    hide RoundStep;
    hide ResultStep;
    var n, n' := c.nodes[i], c'.nodes[i];
    forall j, r | j in c'.nodes && r in c'.nodes[j].rounds ensures RoundOk(c', j, c'.nodes[j], r) {
      if j == i {
        OwnRoundOk(c, i, op, c', r);
      } else {
        OtherRoundOk(c, i, c', j, r);
      }
    }
  }

  lemma OtherRoundOk(c: Cluster, i: nat, c': Cluster, j: nat, r: nat)
    requires RoundsOk(c) && j in c.nodes && j != i && r in c.nodes[j].rounds
    requires i in c'.nodes && Recorded(c, i, c'.nodes[i], c') && Extends(c, c')
    ensures RoundOk(c', j, c.nodes[j], r)
  {
    hide Begun;
    hide Backed;
    assert RoundOk(c, j, c.nodes[j], r);
    RoundStays(c, c', j, c.nodes[j], c.nodes[j], r);
  }

  // ---------- starts ----------

  lemma StartsStep(c: Cluster, i: nat, op: Op, c': Cluster)
    requires Shape(c) && Saved(c) && Honoured(c) && LeadersElected(c) && RoundsOk(c) && TagsOk(c) && StartsOk(c) && AloneOk(c)
    requires ReadMove(c, i, op, c') && 0 !in c.nodes[i].rounds
    ensures StartsOk(c')
  {
    hide Shape;
    hide Saved;
    hide Honoured;
    hide LeadersElected;
    hide TagsOk;
    hide AloneOk;
    hide StartOk;
    hide SavedSince;
    hide RoundOk;
    var n, n' := c.nodes[i], c'.nodes[i];
    assert c'.nodes.Keys == c.nodes.Keys;
    forall j, r | HasStart(c', j, r)
      ensures j in c'.used && r in c'.used[j] && r != 0
      ensures StartOk(StartAt(c', j, r), c'.nodes.Keys, j, r) && SavedSince(StartAt(c', j, r), c'.durable)
    {
      if j == i && r in Begun(n, n') {
        BegunFrom(n, op, n', r);
        NotBegunBefore(c, i, op, r);
        MayStartIsUsed(c, i, op, c', r);
        NewStartOk(c, i, op, n', r);
        JustSaved(StartAt(c', i, r));
      }
    }
  }

  lemma JustSaved(s: Start)
    ensures SavedSince(s, s.durable)
  {}

  lemma MayStartIsUsed(c: Cluster, i: nat, op: Op, c': Cluster, r: nat)
    requires RoundsOk(c) && i in c.nodes && MayStart(c.nodes[i], op, r) && Extends(c, c')
    requires op.StartRead? ==> i in c'.used && op.id in c'.used[i]
    ensures i in c'.used && r in c'.used[i]
  {
    if r in Waiting(c.nodes[i]) { assert RoundOk(c, i, c.nodes[i], r); }
  }

  // ---------- tags ----------

  lemma AnswerTag(c: Cluster, i: nat, op: Op, c': Cluster, x: Message)
    requires TagsOk(c) && StartsOk(c) && Extends(c, c') && op.Receive? && op.m in c.net
    requires i in c.durable && c.durable[i].term <= x.term && x.AppResp? && x.from == i
    requires op.m.App? && x.to == op.m.from && x.readId == op.m.readId
    ensures TagOk(c', x)
  {
    hide StartOk;
    assert InFlight(c, op.m) && TagOk(c, op.m);
  }

  lemma TagsStep(c: Cluster, i: nat, op: Op, c': Cluster)
    requires TagsOk(c) && StartsOk(c) && ReadMove(c, i, op, c') && RoundsOk(c') && Sends(c.nodes[i], op, c'.nodes[i])
    requires i in c.durable && c.durable[i].term <= c'.nodes[i].term
    requires forall x :: x in c'.nodes[i].msgs ==> x.from == i
    ensures TagsOk(c')
  {
    hide StartsOk;
    hide ReadStep;
    hide Recorded;
    var n, n' := c.nodes[i], c'.nodes[i];
    forall x | InFlight(c', x) ensures TagOk(c', x) {
      if InFlight(c, x) {
        assert TagOk(c, x);
      } else {
        assert x in n'.msgs && x !in n.msgs && Sent(op, n', x);
        if x.App? {
          if x.readId != 0 { assert RoundOk(c', i, n', x.readId); }
        } else if x.AppResp? {
          AnswerTag(c, i, op, c', x);
        }
      }
    }
  }

  // ---------- a cluster of one ----------

  /** Without messages a lone node only ever moves from follower to leader of the next term. */
  ghost predicate AloneStep(n: Node, n': Node) {
    || (n'.term == n.term && n'.role == n.role)
    || (n'.role.Leader? && !n.role.Leader? && n'.term == n.term + 1)
  }

  lemma ApplyAlone(n: Node, op: Op)
    requires CallOk(n, op) && |n.prs| == 1 && !op.Receive?
    ensures AloneStep(n, Apply(n, op))
  {
    hide BecomeLeader;
    hide AppendEntry;
    match op
    case TickOnce(jitter) => BecomeLeaderRole(BecomeCandidate(n.(electionElapsed := 0)));
    case LocalHup => BecomeLeaderRole(BecomeCandidate(n));
    case LocalBeat =>
    case ProposeData(data) => if n.role.Leader? { AppendEntryRole(n, data); }
    case StartRead(id) =>
    case DropRead(id) =>
  }

  lemma NobodyElse(peers: set<nat>, i: nat, j: nat)
    requires |peers| == 1 && i in peers && j in peers
    ensures i == j
  {
    Alone(peers, i, j);
  }

  lemma AloneStays(c: Cluster, i: nat, c': Cluster)
    requires AloneOk(c) && i in c.nodes && c.nodes[i] in c.past && i in c'.nodes && c'.nodes == c.nodes[i := c'.nodes[i]]
    requires c'.durable == c.durable && c'.past == c.past + {c'.nodes[i]}
    requires |c.nodes.Keys| == 1 ==> AloneStep(c.nodes[i], c'.nodes[i])
    ensures AloneOk(c')
  {
    assert c'.nodes.Keys == c.nodes.Keys;
    if |c'.nodes.Keys| == 1 {
      forall j | j in c'.nodes ensures j in c'.durable && AloneAt(c', c'.nodes[j], c'.durable[j]) {
        NobodyElse(c.nodes.Keys, i, j);
        assert AloneAt(c, c.nodes[i], c.durable[i]);
      }
    }
  }
}
