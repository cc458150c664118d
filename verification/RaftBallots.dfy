/** Which logs earn votes. Every grant on the network was given to a candidate whose log
    was at least as new as the voter's, and a node free to vote grants exactly then. */
module RaftBallots {
  import opened Bytes
  import opened RaftNode
  import opened RaftCluster
  import opened RaftFacts
  import opened RaftElection
  import opened RaftMessages
  import opened RaftVotes
  import opened RaftVoteRuns

  // ---------- one node ----------

  /** What a node makes of a vote request. The answer is a grant exactly when the request
      is not of an earlier term, the node has no other vote in that term, and its log is
      not newer; a leader of that term or a later one does not answer. */
  lemma VoteIsAnswered(n: Node, m: Message)
    requires NodeOk(n) && m.Vote? && !(n.role.Leader? && m.term <= n.term)
    ensures var n' := Step(n, m);
      var free := m.term > n.term || (m.term == n.term && (n.vote == 0 || n.vote == m.from));
      var granted := free && NotNewer(n.log, m.logTerm, m.logIndex);
      && n'.msgs == n.msgs + {VoteResp(n.id, m.from, n'.term, !granted)}
      && n'.term == (if m.term > n.term then m.term else n.term)
      && n'.vote == (if granted then m.from else if m.term > n.term then 0 else n.vote)
      && n'.log == n.log && (m.term > n.term ==> n'.role.Follower?) && (m.term <= n.term ==> n'.role == n.role)
      && (granted || m.term > n.term ==> n'.electionElapsed == 0 && n'.pending == Some(HardState(n'.term, n'.vote, n.commit)))
  {}

  // ---------- runs ----------

  /** The candidate that sent the request, as it was when it asked. */
  ghost predicate IsAsker(b: Node, id: nat, term: nat) {
    b.role.Candidate? && b.id == id && b.term == term && b.log != []
  }

  ghost predicate Shows(x: Message, b: Node)
    requires x.Vote? && b.log != []
  {
    x.logIndex == |b.log| - 1 && x.logTerm == b.log[|b.log| - 1].term
  }

  ghost predicate RequestBacked(past: set<Node>, x: Message) {
    x.Vote? ==> exists b :: b in past && IsAsker(b, x.from, x.term) && Shows(x, b)
  }

  /** The log of `g` is not newer than that of `b`. */
  ghost predicate NoNewerThan(g: Node, b: Node) {
    g.log != [] && b.log != [] && NotNewer(g.log, b.log[|b.log| - 1].term, |b.log| - 1)
  }

  /** `g` took a request of `b`, in that moment, and came out with the grant in its outbox. */
  ghost predicate GrantedBy(past: set<Node>, x: Message, g: Node, m: Message, b: Node) {
    && g in past && NodeOk(g) && g.id == x.from && m.Vote? && m.from == x.to && m.term == x.term
    && Step(g, m) in past && x in Step(g, m).msgs
    && b in past && IsAsker(b, x.to, x.term) && NoNewerThan(g, b)
  }

  ghost predicate GrantBacked(past: set<Node>, x: Message) {
    x.VoteResp? && !x.reject ==> exists g, m, b :: GrantedBy(past, x, g, m, b)
  }

  ghost predicate Backed(past: set<Node>, x: Message) { RequestBacked(past, x) && GrantBacked(past, x) }

  ghost predicate BallotInv(c: Cluster) {
    && (forall i :: i in c.nodes ==> c.nodes[i] in c.past)
    && (forall x :: x in c.net ==> Backed(c.past, x))
    && (forall i, x :: i in c.nodes && x in c.nodes[i].msgs ==> Backed(c.past, x))
  }

  lemma StaysBacked(past: set<Node>, past': set<Node>, x: Message)
    requires past <= past' && Backed(past, x)
    ensures Backed(past', x)
  {
    hide Step;
    if x.Vote? {
      var b :| b in past && IsAsker(b, x.from, x.term) && Shows(x, b);
      assert b in past';
    }
    if x.VoteResp? && !x.reject {
      var g, m, b :| GrantedBy(past, x, g, m, b);
      assert GrantedBy(past', x, g, m, b);
    }
  }

  lemma SameLog(n: Node, m: Message)
    requires NodeOk(n) && m.Vote?
    ensures Step(n, m).log == n.log
  {}

  lemma NewRequest(past': set<Node>, n': Node, x: Message)
    requires n' in past' && IsRequest(n', x)
    ensures Backed(past', x)
  {}

  lemma NewGrant(past: set<Node>, past': set<Node>, n: Node, m: Message, x: Message)
    requires NodeOk(n) && n in past && past <= past' && Step(n, m) in past' && x in Step(n, m).msgs
    requires IsBallot(Step(n, m), m, x) && Step(n, m).id == n.id && RequestBacked(past, m)
    ensures Backed(past', x)
  {
    SameLog(n, m);
    hide Step;
    if !x.reject {
      var b :| b in past && IsAsker(b, m.from, m.term) && Shows(m, b);
      assert GrantedBy(past', x, n, m, b);
    }
  }

  lemma NewMessage(past: set<Node>, past': set<Node>, n: Node, op: Op, x: Message)
    requires NodeOk(n) && n in past && past' == past + {Apply(n, op)}
    requires x in Apply(n, op).msgs && Sent(op, Apply(n, op), x) && Apply(n, op).id == n.id
    requires op.Receive? ==> RequestBacked(past, op.m)
    ensures Backed(past', x)
  {
    hide Step;
    hide Tick;
    hide Hup;
    hide Beat;
    hide Propose;
    hide ReadIndex;
    hide RequestBacked;
    hide GrantBacked;
    hide IsAppend;
    hide IsRequest;
    hide IsBallot;
    hide IsAnswer;
    var n' := Apply(n, op);
    if IsRequest(n', x) {
      NewRequest(past', n', x);
    } else if op.Receive? && IsBallot(n', op.m, x) {
      NewGrant(past, past', n, op.m, x);
    } else {
      OtherMessage(past', op, n', x);
    }
  }

  lemma OtherMessage(past: set<Node>, op: Op, n': Node, x: Message)
    requires IsAppend(n', x) || (op.Receive? && IsAnswer(n', op.m, x))
    ensures Backed(past, x)
  {}

  lemma MovedBacked(c: Cluster, i: nat, op: Op, c': Cluster)
    requires BallotInv(c) && Moved(c, i, c') && Delivered(c, i, op) && NodeOk(c.nodes[i])
    requires c'.nodes[i] == Apply(c.nodes[i], op) && c'.nodes[i].id == c.nodes[i].id && Sends(c.nodes[i], op, c'.nodes[i])
    ensures BallotInv(c')
  {
    hide Apply;
    hide NodeOk;
    hide Sent;
    var n, n' := c.nodes[i], c'.nodes[i];
    forall x | x in c'.net ensures Backed(c'.past, x) { StaysBacked(c.past, c'.past, x); }
    assert op.Receive? ==> Backed(c.past, op.m);
    forall j, x | j in c'.nodes && x in c'.nodes[j].msgs ensures Backed(c'.past, x) {
      if x in c.nodes[j].msgs {
        StaysBacked(c.past, c'.past, x);
      } else {
        assert j == i && Sent(op, n', x);
        NewMessage(c.past, c'.past, n, op, x);
      }
    }
  }

  lemma DoKeepsBallots(c: Cluster, i: nat, op: Op)
    requires BallotInv(c) && VoteInv(c) && Enabled(c, Do(i, op))
    ensures BallotInv(Next(c, Do(i, op)))
  {
    VoteParts(c);
    hide VoteInv;
    hide Shape;
    hide SamePeers;
    hide BallotInv;
    hide Apply;
    hide Next;
    hide VoteStep;
    hide Sends;
    hide Moved;
    hide Delivered;
    DoMoves(c, i, op);
    ApplyVotes(c.nodes[i], op);
    ApplySends(c.nodes[i], op);
    SameId(c.nodes[i], Apply(c.nodes[i], op));
    MovedBacked(c, i, op, Next(c, Do(i, op)));
  }

  lemma SameBacked(c: Cluster, c': Cluster)
    requires BallotInv(c) && c'.past == c.past && c'.nodes == c.nodes
    requires forall x :: x in c'.net ==> x in c.net || exists i :: i in c.nodes && x in c.nodes[i].msgs
    ensures BallotInv(c')
  {
    hide Backed;
  }

  lemma ClearedBacked(c: Cluster, i: nat, c': Cluster)
    requires BallotInv(c) && Cleared(c, i, c') && c'.nodes[i].msgs == {}
    ensures BallotInv(c')
  {
    forall x | x in c'.net ensures Backed(c'.past, x) { StaysBacked(c.past, c'.past, x); }
    forall j, x | j in c'.nodes && x in c'.nodes[j].msgs ensures Backed(c'.past, x) { StaysBacked(c.past, c'.past, x); }
  }

  lemma StepKeepsBallots(c: Cluster, a: Action)
    requires BallotInv(c) && VoteInv(c) && Enabled(c, a)
    ensures BallotInv(Next(c, a))
  {
    hide VoteInv;
    hide BallotInv;
    hide Cleared;
    match a
    case Do(i, op) => DoKeepsBallots(c, i, op);
    case Persist(i) => SameBacked(c, Next(c, a));
    case Send(i, m) => SameBacked(c, Next(c, a));
    case Done(i) => DoneClears(c, i); ClearedBacked(c, i, Next(c, a));
    case Retry(i) => SameBacked(c, Next(c, a));
    case Restart(i, log) => RestartClears(c, i, log); ClearedBacked(c, i, Next(c, a));
  }

  lemma InitialBallots(c: Cluster)
    requires Initial(c)
    ensures BallotInv(c)
  {
    forall i | i in c.nodes ensures c.nodes[i].msgs == {} && c.nodes[i] in c.past { assert InitialNode(c, i, c.nodes[i]); }
  }

  lemma {:induction false} RunKeepsBallots(c: Cluster, acts: seq<Action>)
    requires BallotInv(c) && VoteInv(c) && Runs(c, acts)
    ensures BallotInv(Final(c, acts))
    decreases |acts|
  {
    hide VoteInv;
    hide BallotInv;
    hide Next;
    hide Possible;
    if acts != [] {
      StepKeepsBallots(c, acts[0]);
      StepKeepsVotes(c, acts[0]);
      RunKeepsBallots(Next(c, acts[0]), acts[1..]);
    }
  }

  lemma ReachableBallots(c: Cluster, acts: seq<Action>)
    requires Initial(c) && Runs(c, acts)
    ensures BallotInv(Final(c, acts)) && VoteInv(Final(c, acts))
  {
    hide Initial;
    hide Runs;
    hide Final;
    hide VoteInv;
    hide BallotInv;
    InitialVotes(c);
    InitialBallots(c);
    RunKeepsVotes(c, acts);
    RunKeepsBallots(c, acts);
  }

  /** Whenever a grant is on the network, the log of the voter when it granted was not
      newer than the candidate's when it asked. */
  lemma GrantsGoToNewerLogs(c: Cluster, acts: seq<Action>, x: Message)
    requires Initial(c) && Runs(c, acts) && x in Final(c, acts).net && x.VoteResp? && !x.reject
    ensures exists g, m, b :: GrantedBy(Final(c, acts).past, x, g, m, b)
  {
    hide Initial;
    hide Runs;
    hide Final;
    hide GrantedBy;
    ReachableBallots(c, acts);
    hide VoteInv;
    assert Backed(Final(c, acts).past, x);
  }

  /** Voter `f` is the candidate itself, or granted to it with a log no newer than its. */
  ghost predicate Supported(past: set<Node>, f: nat, cand: nat, t: nat) {
    f == cand || exists g, m, b :: GrantedBy(past, VoteResp(f, cand, t, false), g, m, b)
  }

  lemma VoterSupports(c: Cluster, f: nat, cand: nat, t: nat)
    requires BallotInv(c) && VotedFor(c.net, f, cand, t)
    ensures Supported(c.past, f, cand, t)
  {
    hide GrantedBy;
    var x :| x in c.net && IsCast(x) && x.from == f && Choice(x) == cand && x.term == t;
    if x.VoteResp? {
      assert x == VoteResp(f, cand, t, false);
      assert Backed(c.past, x);
    }
  }

  ghost predicate MajorityBehind(d: Cluster, cand: nat, t: nat) {
    exists q :: IsMajority(q, d.nodes.Keys) && forall f :: f in q ==> Supported(d.past, f, cand, t)
  }

  lemma LeaderSupported(d: Cluster, a: Node)
    requires BallotInv(d) && LeadersElected(d) && a in d.past && a.role.Leader? && |d.nodes.Keys| != 1
    ensures MajorityBehind(d, a.id, a.term)
  {
    hide Supported;
    hide VotedFor;
    hide BallotInv;
    assert Elected(d.net, d.nodes.Keys, a.id, a.term);
    var q :| IsMajority(q, d.nodes.Keys) && AllVotedFor(d.net, q, a.id, a.term);
    forall f | f in q ensures Supported(d.past, f, a.id, a.term) { VoterSupports(d, f, a.id, a.term); }
  }

  /** Every node that was ever leader of a term had a majority of nodes behind it, each
      with a log no newer than the one it campaigned with. */
  lemma LeadersHadNewestLogs(c: Cluster, acts: seq<Action>, a: Node)
    requires Initial(c) && Runs(c, acts) && a in Final(c, acts).past && a.role.Leader? && |c.nodes.Keys| != 1
    ensures MajorityBehind(Final(c, acts), a.id, a.term)
  {
    hide Initial;
    hide MajorityBehind;
    ReachableBallots(c, acts);
    SameNodes(c, acts);
    hide Runs;
    hide Final;
    VoteParts(Final(c, acts));
    hide VoteInv;
    hide BallotInv;
    hide LeadersElected;
    LeaderSupported(Final(c, acts), a);
  }

  lemma {:induction false} SameNodes(c: Cluster, acts: seq<Action>)
    requires Runs(c, acts)
    ensures Final(c, acts).nodes.Keys == c.nodes.Keys
    decreases |acts|
  {
    if acts != [] {
      NextNodes(c, acts[0]);
      hide Next;
      hide Possible;
      SameNodes(Next(c, acts[0]), acts[1..]);
    }
  }

  lemma NextNodes(c: Cluster, a: Action)
    requires Enabled(c, a)
    ensures Next(c, a).nodes.Keys == c.nodes.Keys
  {
    hide Apply;
    hide Boot;
    hide NodeOk;
  }

  /** The converse. In every reachable state, a request delivered to a node with no other
      vote in its term is answered at once, and granted exactly if the log it shows is at
      least as new as the node's. */
  lemma FreeVoterGrants(c: Cluster, acts: seq<Action>, i: nat, m: Message)
    requires Initial(c) && Runs(c, acts) && Enabled(Final(c, acts), Do(i, Receive(m))) && m.Vote?
    requires var n := Final(c, acts).nodes[i];
      m.term > n.term || (m.term == n.term && !n.role.Leader? && (n.vote == 0 || n.vote == m.from))
    ensures var n := Final(c, acts).nodes[i];
      var granted := NotNewer(n.log, m.logTerm, m.logIndex);
      var d := Next(Final(c, acts), Do(i, Receive(m)));
      && i in d.nodes && d.nodes[i].msgs == n.msgs + {VoteResp(i, m.from, m.term, !granted)}
      && (granted ==> d.nodes[i].vote == m.from && d.nodes[i].term == m.term)
  {
    hide Initial;
    hide Runs;
    hide Final;
    InitialVotes(c);
    RunKeepsVotes(c, acts);
    var d := Final(c, acts);
    VoteParts(d);
    hide VoteInv;
    DoMoves(d, i, Receive(m));
    ShapeOf(d, i);
    hide Next;
    hide Shape;
    hide SamePeers;
    hide MessageShape;
    VoteIsAnswered(d.nodes[i], m);
    hide Step;
  }
}
