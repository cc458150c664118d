/** ReadIndex freshness: the invariant that ties every read round to its start. */
module RaftReads {
  import opened RaftNode
  import opened RaftCluster
  import opened RaftVotes
  import opened RaftReadFacts
  import opened RaftLogs

  // ---------- invariant ----------

  ghost predicate HasStart(c: Cluster, i: nat, r: nat) { i in c.starts && r in c.starts[i] }

  ghost function StartAt(c: Cluster, i: nat, r: nat): Start
    requires HasStart(c, i, r)
  {
    c.starts[i][r]
  }

  /** `f` answered round `r` of node `i` in term `t`, after the round had started. */
  ghost predicate Acked(net: set<Message>, s: Start, f: nat, i: nat, r: nat, t: nat) {
    exists x :: x in net && x !in s.net && x.AppResp? && x.from == f && x.to == i && x.readId == r && x.term == t
  }

  ghost predicate Backed(net: set<Message>, s: Start, n: Node, round: Round, i: nat, r: nat) {
    && s.node.term == n.term && s.node.commit == round.index && i in round.acks
    && forall f :: f in round.acks ==> f in n.prs && (f != i ==> Acked(net, s, f, i, r, n.term))
  }

  ghost predicate RoundOk(c: Cluster, i: nat, n: Node, r: nat)
    requires r in n.rounds
  {
    && i in c.used && r in c.used[i]
    && if n.rounds[r].started then HasStart(c, i, r) && Backed(c.net, StartAt(c, i, r), n, n.rounds[r], i, r)
       else !HasStart(c, i, r)
  }

  ghost predicate RoundsOk(c: Cluster) {
    && (forall i :: i in c.nodes && !c.nodes[i].role.Leader? ==> c.nodes[i].rounds == map[])
    && (forall i, r :: i in c.nodes && r in c.nodes[i].rounds ==> RoundOk(c, i, c.nodes[i], r))
  }

  ghost predicate AnsweredInTime(s: Start, x: Message) {
    x.from in s.durable && s.durable[x.from].term <= x.term
  }

  ghost predicate TagOk(c: Cluster, x: Message) {
    && (x.App? && x.readId != 0 ==> HasStart(c, x.from, x.readId))
    && (x.AppResp? && x.readId != 0 ==> HasStart(c, x.to, x.readId) && AnsweredInTime(StartAt(c, x.to, x.readId), x))
  }

  ghost predicate TagsOk(c: Cluster) {
    forall x :: InFlight(c, x) ==> TagOk(c, x)
  }

  ghost predicate AllAtLeast(d: map<nat, HardState>, q: set<nat>, t: nat) {
    forall f :: f in q ==> f in d && d[f].term >= t
  }

  /** A majority had saved the term of leader `a`, or there is only one node. */
  ghost predicate Known(s: Start, peers: set<nat>, a: Node) {
    || (|peers| == 1 && a.term <= s.node.term)
    || (exists q :: IsMajority(q, peers) && AllAtLeast(s.durable, q, a.term))
  }

  ghost predicate StartOk(s: Start, peers: set<nat>, i: nat, r: nat) {
    && s.node.id == i && s.node.role.Leader? && CommittedInTerm(s.node)
    && i in s.durable && s.durable[i].term <= s.node.term
    && (forall x :: x in s.net ==> !(x.AppResp? && x.to == i && x.readId == r))
    && (forall a :: a in s.past && a.role.Leader? ==> Known(s, peers, a))
  }

  ghost predicate SavedSince(s: Start, durable: map<nat, HardState>) {
    forall f :: f in durable ==> f in s.durable && s.durable[f].term <= durable[f].term
  }

  ghost predicate StartsOk(c: Cluster) {
    forall i, r :: HasStart(c, i, r) ==>
      i in c.used && r in c.used[i] && r != 0 && StartOk(StartAt(c, i, r), c.nodes.Keys, i, r) && SavedSince(StartAt(c, i, r), c.durable)
  }

  /** A cluster of one elects itself without saving first. */
  ghost predicate AloneOk(c: Cluster) {
    |c.nodes.Keys| == 1 ==> forall i :: i in c.nodes ==> i in c.durable && AloneAt(c, c.nodes[i], c.durable[i])
  }

  ghost predicate AloneAt(c: Cluster, n: Node, d: HardState) {
    && (!n.role.Leader? ==> n.term == d.term)
    && (forall a :: a in c.past && a.role.Leader? ==> a.term <= d.term + 1 && (n.role.Leader? ==> a.term <= n.term))
  }

  ghost predicate ReadInv(c: Cluster) {
    RoundsOk(c) && TagsOk(c) && StartsOk(c) && AloneOk(c)
  }

  lemma InitialReads(c: Cluster)
    requires Initial(c)
    ensures ReadInv(c)
  {
    InitialPast(c);
    forall i | i in c.nodes
      ensures c.nodes[i].rounds == map[] && c.nodes[i].msgs == {} && c.nodes[i].term == 0
      ensures i in c.durable && c.durable[i].term == 0
    {
      assert InitialNode(c, i, c.nodes[i]);
    }
    forall i, r ensures !HasStart(c, i, r) {
      if i in c.nodes { assert InitialNode(c, i, c.nodes[i]); }
    }
  }

  // ---------- starting ----------

  /** The starts recorded when node `i` moves to `n'`. */
  ghost predicate Recorded(c: Cluster, i: nat, n': Node, c': Cluster) {
    && i in c.nodes
    && (forall j, r :: HasStart(c, j, r) && !(j == i && r in Begun(c.nodes[i], n')) ==>
          HasStart(c', j, r) && StartAt(c', j, r) == StartAt(c, j, r))
    && (forall j, r :: HasStart(c', j, r) ==> HasStart(c, j, r) || (j == i && r in Begun(c.nodes[i], n')))
    && (forall r :: r in Begun(c.nodes[i], n') ==> HasStart(c', i, r) && StartAt(c', i, r) == Start(n', c.net, c.past, c.durable))
  }

  lemma DoRecords(c: Cluster, i: nat, op: Op)
    requires Enabled(c, Do(i, op))
    ensures Recorded(c, i, Apply(c.nodes[i], op), Next(c, Do(i, op)))
    ensures var c' := Next(c, Do(i, op));
      (forall j :: j in c.used ==> j in c'.used && c.used[j] <= c'.used[j]) && (op.StartRead? ==> op.id in c'.used[i])
  {
    hide Apply;
    hide Begun;
  }

  lemma NoneBegun(n: Node, n': Node)
    requires Started(n') <= Started(n) && n'.readStates <= n.readStates
    ensures Begun(n, n') == {}
  {}

  lemma MajoritySaved(c: Cluster, a: Node)
    requires Shape(c) && Honoured(c) && LeadersElected(c) && a in c.past && a.role.Leader? && |c.nodes.Keys| != 1
    ensures exists q :: IsMajority(q, c.nodes.Keys) && AllAtLeast(c.durable, q, a.term)
  {
    hide NodeShape;
    hide VotedFor;
    hide OutboxHonoured;
    assert Elected(c.net, c.nodes.Keys, a.id, a.term);
    var q :| IsMajority(q, c.nodes.Keys) && AllVotedFor(c.net, q, a.id, a.term);
    forall f | f in q ensures f in c.durable && c.durable[f].term >= a.term { VoterSaved(c, f, a.id, a.term); }
    assert AllAtLeast(c.durable, q, a.term);
  }

  lemma VoterSaved(c: Cluster, f: nat, cand: nat, t: nat)
    requires Shape(c) && Honoured(c) && VotedFor(c.net, f, cand, t)
    ensures f in c.durable && c.durable[f].term >= t
  {
    hide NodeShape;
    hide OutboxHonoured;
    var x :| x in c.net && IsCast(x) && x.from == f && Choice(x) == cand && x.term == t;
    assert MessageShape(c, x);
  }

  lemma NewStartOk(c: Cluster, i: nat, op: Op, n': Node, r: nat)
    requires Shape(c) && Saved(c) && Honoured(c) && LeadersElected(c) && TagsOk(c) && AloneOk(c)
    requires i in c.nodes && ReadStep(c.nodes[i], op, n') && r in Begun(c.nodes[i], n') && n'.id == i
    requires !c.nodes[i].role.Leader? ==> c.nodes[i].rounds == map[]
    requires !HasStart(c, i, r) && r != 0
    ensures StartOk(Start(n', c.net, c.past, c.durable), c.nodes.Keys, i, r)
  {
    BegunFrom(c.nodes[i], op, n', r);
    hide ReadStep;
    hide Begun;
    hide NodeShape;
    hide CommittedInTerm;
    var s := Start(n', c.net, c.past, c.durable);
    assert SavedAt(c.nodes[i], c.durable[i], i in c.ready);
    forall x | x in s.net ensures !(x.AppResp? && x.to == i && x.readId == r) { assert InFlight(c, x) && TagOk(c, x); }
    hide TagsOk;
    forall a | a in s.past && a.role.Leader? ensures Known(s, c.nodes.Keys, a) {
      if |c.nodes.Keys| != 1 {
        MajoritySaved(c, a);
        var q :| IsMajority(q, c.nodes.Keys) && AllAtLeast(c.durable, q, a.term);
        assert AllAtLeast(s.durable, q, a.term);
      } else {
        assert AloneAt(c, c.nodes[i], c.durable[i]);
      }
    }
  }
}
