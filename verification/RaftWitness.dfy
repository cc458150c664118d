/** Why stale votes must be kept from candidates: without that, one more delivery after an
    ordinary run gives a term two leaders. */
module RaftWitness {
  import opened RaftNode
  import opened RaftCluster
  import opened RaftElection
  import opened RaftVotes
  import opened RaftVoteRuns

  ghost predicate Reach(c: Cluster, d: Cluster) {
    exists acts :: Runs(c, acts) && Final(c, acts) == d
  }

  lemma {:induction false} RunOneMore(c: Cluster, acts: seq<Action>, a: Action)
    requires Runs(c, acts) && Enabled(Final(c, acts), a)
    ensures Runs(c, acts + [a]) && Final(c, acts + [a]) == Next(Final(c, acts), a)
    decreases |acts|
  {
    hide Next;
    hide Possible;
    if acts == [] {
      assert acts + [a] == [a] && [a][1..] == [];
      assert Runs(Next(c, a), []);
    } else {
      RunOneMore(Next(c, acts[0]), acts[1..], a);
      assert (acts + [a])[1..] == acts[1..] + [a];
    }
  }

  lemma ReachOneMore(c: Cluster, d: Cluster, a: Action)
    requires Reach(c, d) && VoteInv(d) && Enabled(d, a)
    ensures Reach(c, Next(d, a)) && VoteInv(Next(d, a))
  {
    hide Next;
    hide Possible;
    hide VoteInv;
    hide Runs;
    hide Final;
    var acts :| Runs(c, acts) && Final(c, acts) == d;
    RunOneMore(c, acts, a);
    StepKeepsVotes(d, a);
  }

  // ---------- three nodes ----------

  const PEERS := {1, 2, 3}

  ghost predicate Three(c: Cluster, d: Cluster) { Reach(c, d) && VoteInv(d) && d.nodes.Keys == PEERS }

  ghost predicate AtRest(d: Cluster, i: nat) {
    i in d.nodes && i !in d.ready && d.nodes[i].log == [SENTINEL] && !d.nodes[i].role.Leader?
  }

  lemma Sizes(d: Cluster, i: nat)
    requires VoteInv(d) && d.nodes.Keys == PEERS && i in d.nodes
    ensures NodeOk(d.nodes[i]) && d.nodes[i].id == i && d.nodes[i].prs.Keys == PEERS && |d.nodes[i].prs| == 3
    ensures i in d.durable && i in d.used && i in d.starts
  {
    hide VoteInv;
    hide Shape;
    hide SamePeers;
    hide Saved;
    hide Honoured;
    hide SingleVotes;
    hide LeadersElected;
    VoteParts(d);
    PeersOf(d, i);
    Tables(d, i);
    ThreeKeys(d.nodes[i].prs);
  }

  lemma ThreeKeys(m: map<nat, Progress>)
    requires m.Keys == PEERS
    ensures |m| == 3
  {
    assert |m| == |m.Keys| && |PEERS| == 3;
  }

  lemma Tables(d: Cluster, i: nat)
    requires Shape(d) && i in d.nodes
    ensures i in d.durable && i in d.used && i in d.starts && NodeOk(d.nodes[i]) && d.nodes[i].id == i
  {
    hide NodeOk;
    hide MessageShape;
    ShapeOf(d, i);
  }

  /** Node `i` campaigns; its requests stay in the outbox. */
  lemma Campaigns(c: Cluster, d: Cluster, i: nat, f: nat) returns (e: Cluster)
    requires Three(c, d) && AtRest(d, i) && f in PEERS && f != i
    ensures Three(c, e) && e.nodes == d.nodes[i := e.nodes[i]] && e.net == d.net && e.ready == d.ready && AtRest(e, i)
    ensures e.nodes[i].role.Candidate? && e.nodes[i].term == d.nodes[i].term + 1 && e.nodes[i].votes == map[i := true]
    ensures Vote(i, f, d.nodes[i].term + 1, 0, 0) in e.nodes[i].msgs
  {
    hide VoteInv;
    hide Reach;
    Sizes(d, i);
    var a := Do(i, LocalHup);
    assert Enabled(d, a);
    ReachOneMore(c, d, a);
    e := Next(d, a);
    ChangedFrame(d, i, Campaign(d.nodes[i]));
    hide Changed;
    assert e.nodes[i] == Campaign(d.nodes[i]);
    assert f in d.nodes[i].prs.Keys;
    assert e.nodes.Keys == PEERS;
  }

  /** Node `i` saves its Ready, sends `m` and finishes. */
  lemma SendsOne(c: Cluster, d: Cluster, i: nat, m: Message) returns (e: Cluster)
    requires Three(c, d) && AtRest(d, i) && m in d.nodes[i].msgs
    ensures Three(c, e) && e.nodes == d.nodes[i := Advance(d.nodes[i])] && e.net == d.net + {m} && e.ready == d.ready && AtRest(e, i)
  {
    hide VoteInv;
    hide Reach;
    hide NodeOk;
    Sizes(d, i);
    ReachOneMore(c, d, Persist(i));
    var d1 := Next(d, Persist(i));
    Sizes(d1, i);
    ReachOneMore(c, d1, Send(i, m));
    var d2 := Next(d1, Send(i, m));
    Sizes(d2, i);
    ReachOneMore(c, d2, Done(i));
    e := Next(d2, Done(i));
    ChangedFrame(d2, i, Advance(d2.nodes[i]));
    hide Changed;
    assert e.ready == d.ready && e.nodes.Keys == PEERS;
  }

  /** Node `f`, in an earlier term, receives `i`'s request and its grant is sent. */
  lemma Grants(c: Cluster, d: Cluster, f: nat, i: nat, t: nat) returns (e: Cluster)
    requires Three(c, d) && AtRest(d, f) && i in PEERS && i != f && d.nodes[f].term < t && Vote(i, f, t, 0, 0) in d.net
    ensures Three(c, e) && e.nodes == d.nodes[f := e.nodes[f]] && e.ready == d.ready && AtRest(e, f)
    ensures e.net == d.net + {VoteResp(f, i, t, false)} && e.nodes[f].term == t && e.nodes[f].role.Follower?
  {
    hide VoteInv;
    hide Reach;
    Sizes(d, f);
    var m := Vote(i, f, t, 0, 0);
    var a := Do(f, Receive(m));
    assert Enabled(d, a);
    ReachOneMore(c, d, a);
    var d1 := Next(d, a);
    ChangedFrame(d, f, Step(d.nodes[f], m));
    hide Changed;
    assert d1.nodes[f] == Step(d.nodes[f], m) && d1.nodes.Keys == PEERS;
    assert VoteResp(f, i, t, false) in d1.nodes[f].msgs;
    e := SendsOne(c, d1, f, VoteResp(f, i, t, false));
  }

  /** A candidate that counts a second vote leads. */
  lemma SecondVoteWins(n: Node, m: Message)
    requires NodeOk(n) && n.role.Candidate? && n.votes == map[n.id := true] && |n.prs| == 3 && 0 !in n.rounds
    requires m.VoteResp? && !m.reject && m.from != n.id && m.term <= n.term
    ensures Step(n, m).role.Leader? && Step(n, m).term == n.term && Step(n, m).id == n.id
  {
    hide BecomeLeader;
    var a := n.(votes := n.votes[m.from := true]);
    assert Supporters(a.votes) == {n.id, m.from};
    BecomeLeaderRole(a);
    BecomeLeaderVotes(a);
  }

  function FirstNode(i: nat): Node { Boot(i, PEERS, HardState(0, 0, 0), [SENTINEL], 15, 2) }

  ghost function FirstCluster(): Cluster {
    var blank := HardState(0, 0, 0);
    Cluster(map[1 := FirstNode(1), 2 := FirstNode(2), 3 := FirstNode(3)], map[1 := blank, 2 := blank, 3 := blank], {}, {},
            {FirstNode(1), FirstNode(2), FirstNode(3)}, map[], map[1 := {}, 2 := {}, 3 := {}], map[1 := map[], 2 := map[], 3 := map[]])
  }

  lemma FirstIsInitial()
    ensures Initial(FirstCluster()) && FirstCluster().nodes.Keys == PEERS
    ensures forall i :: i in PEERS ==> FirstCluster().nodes[i] == FirstNode(i)
  {
    var c := FirstCluster();
    FirstIds();
    hide FirstNode;
    assert c.nodes.Keys == PEERS;
    forall i | i in c.nodes ensures InitialNode(c, i, c.nodes[i]) { FirstNodeIsInitial(i); }
    forall a | a in c.past ensures a.id in c.nodes && a == c.nodes[a.id] {}
  }

  lemma FirstIds()
    ensures FirstNode(1).id == 1 && FirstNode(2).id == 2 && FirstNode(3).id == 3
  {}

  lemma FirstNodeIsInitial(i: nat)
    requires i in PEERS
    ensures InitialNode(FirstCluster(), i, FirstNode(i)) && i in FirstCluster().nodes && FirstCluster().nodes[i] == FirstNode(i)
  {
    var c := FirstCluster();
    assert c.nodes.Keys == PEERS;
  }

  /** After an ordinary run, delivering one granted vote of an earlier term to a candidate
      gives the term a second leader. */
  lemma StaleVoteElectsSecondLeader() returns (c: Cluster, d: Cluster, m: Message, a: Node, b: Node)
    ensures Initial(c) && Reach(c, d)
    ensures Possible(d, Do(1, Receive(m))) && StaleVote(d.nodes[1], m)
    ensures var e := Next(d, Do(1, Receive(m)));
      a in e.past && b in e.past && a.role.Leader? && b.role.Leader? && a.term == b.term && a.id != b.id
  {
    hide VoteInv;
    hide Reach;
    hide Runs;
    c := FirstCluster();
    FirstIsInitial();
    InitialVotes(c);
    hide FirstCluster;
    hide Initial;
    ReachSelf(c);
    var d1 := Campaigns(c, c, 1, 2);
    var d2 := SendsOne(c, d1, 1, Vote(1, 2, 1, 0, 0));
    var d3 := Grants(c, d2, 2, 1, 1);
    var d4 := Campaigns(c, d3, 1, 2);
    var d5 := Campaigns(c, d4, 3, 2);
    var d6 := Campaigns(c, d5, 3, 2);
    var d7 := SendsOne(c, d6, 3, Vote(3, 2, 2, 0, 0));
    var d8 := Grants(c, d7, 2, 3, 2);
    d := Wins(c, d8, 3, VoteResp(2, 3, 2, false));
    b := d.nodes[3];
    m := VoteResp(2, 1, 1, false);
    a := StaleWins(d, m);
  }

  lemma ReachSelf(c: Cluster)
    ensures Reach(c, c)
  {
    assert Runs(c, []) && Final(c, []) == c;
  }

  lemma Wins(c: Cluster, d: Cluster, i: nat, m: Message) returns (e: Cluster)
    requires Three(c, d) && i in d.nodes && i !in d.ready && d.nodes[i].role.Candidate? && d.nodes[i].votes == map[i := true]
    requires m in d.net && m.to == i && m.VoteResp? && !m.reject && m.from != i && m.term == d.nodes[i].term
    ensures Three(c, e) && e.nodes == d.nodes[i := e.nodes[i]] && e.net == d.net && e.ready == d.ready
    ensures e.nodes[i].role.Leader? && e.nodes[i].term == d.nodes[i].term && e.nodes[i].id == i && e.nodes[i] in e.past
  {
    hide VoteInv;
    hide Reach;
    Sizes(d, i);
    NoZero(d, i);
    SecondVoteWins(d.nodes[i], m);
    var a := Do(i, Receive(m));
    ReachOneMore(c, d, a);
    e := Next(d, a);
    hide Step;
    ChangedFrame(d, i, Step(d.nodes[i], m));
    hide Changed;
    assert e.nodes.Keys == PEERS;
  }

  lemma NoZero(d: Cluster, i: nat)
    requires VoteInv(d) && i in d.nodes
    ensures 0 !in d.nodes[i].rounds
  {
    assert NodeShape(d, i, d.nodes[i]);
  }

  lemma StaleWins(d: Cluster, m: Message) returns (a: Node)
    requires VoteInv(d) && d.nodes.Keys == PEERS && 1 !in d.ready && d.nodes[1].role.Candidate? && d.nodes[1].votes == map[1 := true]
    requires m in d.net && m == VoteResp(2, 1, 1, false) && d.nodes[1].term == 2
    ensures Possible(d, Do(1, Receive(m))) && StaleVote(d.nodes[1], m)
    ensures var e := Next(d, Do(1, Receive(m)));
      d.past <= e.past && a in e.past && a.role.Leader? && a.term == 2 && a.id == 1
  {
    hide VoteInv;
    assert 1 in d.nodes.Keys;
    Sizes(d, 1);
    NoZero(d, 1);
    SecondVoteWins(d.nodes[1], m);
    a := Step(d.nodes[1], m);
    hide Step;
    ChangedFrame(d, 1, a);
    hide Changed;
  }
}
