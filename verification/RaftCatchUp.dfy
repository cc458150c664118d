/** Replication converges: a leader and a peer that only exchange appends and answers end,
    after a bounded number of exchanges, with the peer holding the leader's whole log and
    the leader knowing it, from whatever logs they start. */
module RaftCatchUp {
  import opened RaftNode
  import opened RaftCluster
  import opened RaftElection
  import opened RaftVotes
  import opened RaftVoteRuns
  import opened RaftLogs
  import opened RaftLogSteps
  import opened RaftLogRuns
  import opened RaftLaws

  /** What Log Matching says of two logs. */
  ghost predicate Matching(a: Log, b: Log) {
    forall i :: 0 <= i < |a| && i < |b| && a[i].term == b[i].term ==> Agree(a, b, i + 1)
  }

  /** `n` leads, `g` follows or campaigns in the same term or an earlier one. */
  ghost predicate Paired(n: Node, g: Node) {
    && NodeOk(n) && n.role.Leader? && 0 !in n.rounds && g.id in n.prs && g.id != n.id
    && 0 < n.prs[g.id].next <= |n.log| && n.prs[g.id].match_ < |n.log|
    && NodeOk(g) && g.term <= n.term && !(g.role.Leader? && g.term == n.term) && n.id in g.prs && 0 !in g.rounds
    && Matching(n.log, g.log)
  }

  /** The append the leader sends next. */
  ghost function Offer(n: Node, g: Node): Message
    requires Paired(n, g)
  {
    AppFor(n, g.id, 0)
  }

  /** The peer's answer to it. */
  ghost function Reply(n: Node, g: Node): (y: Message)
    requires Paired(n, g)
    ensures y.AppResp? && y.from == g.id && y.term == n.term && Step(g, Offer(n, g)).msgs == g.msgs + {y}
  {
    hide Step;
    AppendIsAnswered(g, Offer(n, g));
    var g' := Step(g, Offer(n, g));
    var x := Offer(n, g);
    if x.logIndex >= |g.log| then AppResp(g.id, n.id, n.term, true, |g.log|, 0, 0)
    else if g.log[x.logIndex].term != x.logTerm then AppResp(g.id, n.id, n.term, true, |g'.log|, g.log[x.logIndex].term, 0)
    else
      assert g'.log != [];
      AppResp(g.id, n.id, n.term, false, |g'.log| - 1, 0, 0)
  }

  ghost predicate CaughtUp(n: Node, g: Node) {
    n.log != [] && g.id in n.prs && n.prs[g.id] == Progress(|n.log| - 1, |n.log|) && Agree(n.log, g.log, |n.log|)
  }

  /** An exchange leaves the leader's log alone, and either the peer has caught up or one
      of the two logs' distance measures has dropped. */
  ghost predicate Closer(n: Node, g: Node, n': Node, g': Node) {
    && Paired(n', g') && n'.log == n.log && n'.term == n.term && n'.id == n.id && g'.id == g.id
    && (CaughtUp(n', g') || Distance(n', g') < Distance(n, g))
  }

  /** Twice the peer's log, and one more while the leader offers entries beyond its end. */
  ghost function Distance(n: Node, g: Node): nat {
    2 * |g.log| + if g.id in n.prs && n.prs[g.id].next > |g.log| then 1 else 0
  }

  lemma SentinelsAgree(n: Node, g: Node)
    requires NodeOk(n) && NodeOk(g)
    ensures n.log != [] && g.log != [] && n.log[0] == g.log[0]
  {}

  /** Both calls of an exchange are ones the nodes accept, and keep them well-formed. */
  lemma ExchangeIsOk(n: Node, g: Node)
    requires Paired(n, g)
    ensures var x, y := Offer(n, g), Reply(n, g);
      && NodeOk(Step(g, x)) && Step(g, x).id == g.id && Step(g, x).prs.Keys == g.prs.Keys && 0 !in Step(g, x).rounds
      && NodeOk(Step(n, y)) && Step(n, y).id == n.id && Step(n, y).prs.Keys == n.prs.Keys && 0 !in Step(n, y).rounds
  {
    hide Step;
    hide Matching;
    var x, y := Offer(n, g), Reply(n, g);
    SuffixTermsOk(n.log, x.logIndex + 1);
    SentinelsAgree(n, g);
    hide LogOk;
    StepVotes(g, x);
    StepVotes(n, y);
  }

  lemma TooShort(n: Node, g: Node)
    requires Paired(n, g) && Offer(n, g).logIndex >= |g.log|
    ensures Closer(n, g, Step(n, Reply(n, g)), Step(g, Offer(n, g)))
  {
    var x, y := Offer(n, g), Reply(n, g);
    SentinelsAgree(n, g);
    AppendIsAnswered(g, x);
    AnswerMovesProgress(n, y);
    ExchangeIsOk(n, g);
    hide Step;
    hide LogOk;
    hide Matching;
  }

  lemma Conflicting(n: Node, g: Node)
    requires Paired(n, g) && Offer(n, g).logIndex < |g.log| && g.log[Offer(n, g).logIndex].term != Offer(n, g).logTerm
    ensures Closer(n, g, Step(n, Reply(n, g)), Step(g, Offer(n, g)))
  {
    var x, y := Offer(n, g), Reply(n, g);
    SentinelsAgree(n, g);
    assert 0 < x.logIndex && x.logTerm == n.log[x.logIndex].term;
    EntryTerm(g.log, x.logIndex);
    PeerCuts(n, g);
    AnswerMovesProgress(n, y);
    ExchangeIsOk(n, g);
    assert x.logIndex < |n.log|;
    hide Step;
    hide LogOk;
    hide Matching;
    hide Offer;
    hide Reply;
  }

  lemma PeerCuts(n: Node, g: Node)
    requires Paired(n, g) && Offer(n, g).logIndex < |g.log| && g.log[Offer(n, g).logIndex].term != Offer(n, g).logTerm
    ensures var x, g' := Offer(n, g), Step(g, Offer(n, g));
      && 0 < |g'.log| <= x.logIndex && Matching(n.log, g'.log) && g'.role.Follower? && g'.term == n.term
      && Reply(n, g) == AppResp(g.id, n.id, n.term, true, |g'.log|, g.log[x.logIndex].term, 0)
  {
    var x := Offer(n, g);
    AppendIsAnswered(g, x);
    ExchangeIsOk(n, g);
    hide Step;
    hide HasTaken;
    hide Largest;
    hide Smallest;
    var g' := Step(g, x);
    assert 0 < |g'.log| by { assert NodeOk(g'); }
    hide LogOk;
    PrefixMatches(n.log, g.log, g'.log);
    hide Matching;
  }

  lemma PrefixMatches(a: Log, b: Log, b': Log)
    requires Matching(a, b) && |b'| <= |b| && b' == b[..|b'|]
    ensures Matching(a, b')
  {
    forall i | 0 <= i < |a| && i < |b'| && a[i].term == b'[i].term ensures Agree(a, b', i + 1) {
      assert Agree(a, b, i + 1);
    }
  }

  lemma PeerAccepts(n: Node, g: Node)
    requires Paired(n, g) && Offer(n, g).logIndex < |g.log| && g.log[Offer(n, g).logIndex].term == Offer(n, g).logTerm
    ensures var g' := Step(g, Offer(n, g));
      && Agree(n.log, g'.log, |n.log|) && Matching(n.log, g'.log) && g'.role.Follower? && g'.term == n.term
      && Reply(n, g) == AppResp(g.id, n.id, n.term, false, |g'.log| - 1, 0, 0)
  {
    var x := Offer(n, g);
    SentinelsAgree(n, g);
    assert x.logIndex < |n.log| && x.logTerm == n.log[x.logIndex].term;
    AppendIsAnswered(g, x);
    hide Step;
    hide LogOk;
    hide Largest;
    hide Smallest;
    hide CutBefore;
    var g' := Step(g, x);
    assert Agree(n.log, g.log, x.logIndex + 1);
    if x.logIndex + 1 < |n.log| {
      assert x.entries == n.log[x.logIndex + 1..];
      TookAll(n.log, g.log, x, g'.log);
    } else {
      assert x.entries == [];
    }
  }

  lemma Accepting(n: Node, g: Node)
    requires Paired(n, g) && Offer(n, g).logIndex < |g.log| && g.log[Offer(n, g).logIndex].term == Offer(n, g).logTerm
    ensures Closer(n, g, Step(n, Reply(n, g)), Step(g, Offer(n, g)))
  {
    PeerAccepts(n, g);
    AnswerMovesProgress(n, Reply(n, g));
    ExchangeIsOk(n, g);
    hide Step;
    hide LogOk;
    hide Matching;
    hide Offer;
  }

  lemma TookAll(a: Log, b: Log, x: Message, b': Log)
    requires x.App? && x.logIndex + 1 < |a| && x.logIndex < |b| && Agree(a, b, x.logIndex + 1)
    requires x.entries == a[x.logIndex + 1..] && HasTaken(b, x, b')
    ensures b' == a && Matching(a, b')
  {
    var p := x.logIndex + 1;
    assert b'[..p] == a[..p];
    assert b' == b'[..p] + b'[p..] && a == a[..p] + a[p..];
  }

  lemma ExchangeCloses(n: Node, g: Node)
    requires Paired(n, g)
    ensures Closer(n, g, Step(n, Reply(n, g)), Step(g, Offer(n, g)))
  {
    hide Step;
    hide Closer;
    hide Paired;
    var x := Offer(n, g);
    if x.logIndex >= |g.log| {
      TooShort(n, g);
    } else if g.log[x.logIndex].term != x.logTerm {
      Conflicting(n, g);
    } else {
      Accepting(n, g);
    }
  }

  /** The two nodes after one append and its answer. */
  ghost function Exchanged(n: Node, g: Node): (r: (Node, Node))
    requires Paired(n, g)
    ensures Closer(n, g, r.0, r.1)
  {
    hide Closer;
    hide Matching;
    ExchangeCloses(n, g);
    (Step(n, Reply(n, g)), Step(g, Offer(n, g)))
  }

  /** The two nodes after `k` exchanges. */
  ghost function AfterExchanges(n: Node, g: Node, k: nat): (r: (Node, Node))
    requires Paired(n, g)
    ensures Paired(r.0, r.1) && r.0.log == n.log && r.0.term == n.term && r.1.id == g.id
    decreases k
  {
    if k == 0 then (n, g) else AfterExchanges(Exchanged(n, g).0, Exchanged(n, g).1, k - 1)
  }

  lemma {:induction false} CatchUpWithin(n: Node, g: Node) returns (k: nat)
    requires Paired(n, g)
    ensures k <= Distance(n, g) + 1
    ensures CaughtUp(AfterExchanges(n, g, k).0, AfterExchanges(n, g, k).1)
    decreases Distance(n, g)
  {
    hide Exchanged;
    hide Paired;
    hide CaughtUp;
    hide Distance;
    var n', g' := Exchanged(n, g).0, Exchanged(n, g).1;
    if CaughtUp(n', g') {
      k := 1;
      assert AfterExchanges(n', g', 0) == (n', g');
    } else {
      var rest := CatchUpWithin(n', g');
      k := rest + 1;
    }
  }

  /** After at most twice the length of the peer's log and two more exchanges the peer
      holds the leader's whole log, and the leader knows it. */
  lemma PeerCatchesUp(n: Node, g: Node)
    requires Paired(n, g)
    ensures exists k: nat :: k <= 2 * |g.log| + 2 && CaughtUp(AfterExchanges(n, g, k).0, AfterExchanges(n, g, k).1)
  {
    hide AfterExchanges;
    hide CaughtUp;
    var k := CatchUpWithin(n, g);
  }

  // ---------- reachable states ----------

  lemma LogsMatch(d: Cluster, i: nat, j: nat)
    requires PastAnchored(d) && i in d.nodes && j in d.nodes
    ensures Matching(d.nodes[i].log, d.nodes[j].log)
  {
    hide Anchored;
    var a, b := d.nodes[i].log, d.nodes[j].log;
    forall k | 0 <= k < |a| && k < |b| && a[k].term == b[k].term ensures Agree(a, b, k + 1) {
      SameTermAgrees(a, b, k, d.tops);
    }
  }

  lemma KnownProgress(d: Cluster, i: nat, j: nat)
    requires ProgressOk(d) && i in d.nodes && d.nodes[i].role.Leader? && j in d.nodes[i].prs && d.nodes[i].id == i != j
    requires LogOk(d.nodes[i].log)
    ensures var n := d.nodes[i]; 0 < n.prs[j].next <= |n.log| && n.prs[j].match_ < |n.log|
  {
    hide Held;
    hide Synced;
    var n := d.nodes[i];
    assert PeerOk(d, n, j, n.prs[j]);
    if n.prs[j].match_ != 0 { HeldBound(d.past, j, n.term, n.log, n.prs[j].match_); }
  }

  lemma Basics(d: Cluster, i: nat, j: nat)
    requires Shape(d) && SamePeers(d) && i in d.nodes && j in d.nodes
    ensures var n := d.nodes[i]; NodeOk(n) && n.id == i && 0 !in n.rounds && n in d.past && j in n.prs
  {
    hide MessageShape;
    ShapeOf(d, i);
    PeersOf(d, i);
    hide Shape;
    hide SamePeers;
  }

  lemma LeaderAndPeer(d: Cluster, i: nat, j: nat)
    requires Shape(d) && SamePeers(d) && ProgressOk(d) && PastAnchored(d) && SingleVotes(d) && LeadersElected(d)
    requires i in d.nodes && j in d.nodes && i != j && d.nodes[i].role.Leader? && d.nodes[j].term <= d.nodes[i].term
    ensures Paired(d.nodes[i], d.nodes[j])
  {
    hide Shape;
    hide SamePeers;
    hide SingleVotes;
    hide LeadersElected;
    hide PastAnchored;
    hide ProgressOk;
    hide Matching;
    var n, g := d.nodes[i], d.nodes[j];
    Basics(d, i, j);
    Basics(d, j, i);
    LogsMatch(d, i, j);
    KnownProgress(d, i, j);
    if g.role.Leader? && g.term == n.term { OneLeader(d, n, g); }
    hide LogOk;
  }

  /** In every reachable state, a leader and any node not ahead of it in term are such a
      pair, so exchanging appends brings that node up to the leader's log. */
  lemma ReachablePeersCatchUp(c: Cluster, acts: seq<Action>, i: nat, j: nat)
    requires Initial(c) && Runs(c, acts) && NoRestarts(acts)
    requires var d := Final(c, acts);
      i in d.nodes && j in d.nodes && i != j && d.nodes[i].role.Leader? && d.nodes[j].term <= d.nodes[i].term
    ensures var n, g := Final(c, acts).nodes[i], Final(c, acts).nodes[j];
      Paired(n, g) && exists k: nat :: k <= 2 * |g.log| + 2 && CaughtUp(AfterExchanges(n, g, k).0, AfterExchanges(n, g, k).1)
  {
    hide Initial;
    hide Runs;
    hide Final;
    var d := Final(c, acts);
    ReachableLogs(c, acts);
    VoteParts(d);
    LogParts(d);
    hide VoteInv;
    hide LogInv;
    hide Paired;
    hide AfterExchanges;
    hide CaughtUp;
    LeaderAndPeer(d, i, j);
    PeerCatchesUp(d.nodes[i], d.nodes[j]);
  }
}
