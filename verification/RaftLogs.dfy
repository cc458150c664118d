/** Log Matching: every entry is anchored in the log of the leader of its term. */
module RaftLogs {
  import opened RaftNode
  import opened RaftCluster

  type Log = seq<LogEntry>

  // ---------- agreement ----------

  ghost predicate Agree(a: Log, b: Log, n: nat) { n <= |a| && n <= |b| && forall k :: 0 <= k < n ==> a[k] == b[k] }

  ghost predicate Prefix(a: Log, b: Log) { Agree(a, b, |a|) }

  lemma AgreeTransitive(a: Log, b: Log, c: Log, n: nat)
    requires Agree(a, b, n) && Agree(b, c, n)
    ensures Agree(a, c, n)
  {}

  // ---------- anchoring ----------

  ghost predicate AnchoredAt(log: Log, i: nat, tops: map<nat, Node>)
    requires i < |log|
  {
    log[i].term in tops && Agree(log, tops[log[i].term].log, i + 1)
  }

  /** Up to each of its entries the log is that of the entry's leader. */
  ghost predicate Anchored(log: Log, tops: map<nat, Node>) {
    forall i :: 0 < i < |log| ==> AnchoredAt(log, i, tops)
  }

  ghost predicate TopsGrow(tops: map<nat, Node>, tops': map<nat, Node>) {
    forall t :: t in tops ==> t in tops' && TopGrows(tops[t], tops'[t])
  }

  ghost predicate TopGrows(a: Node, b: Node) {
    Prefix(a.log, b.log) && a.commit <= b.commit && a.id == b.id
  }

  lemma AnchoredGrows(log: Log, tops: map<nat, Node>, tops': map<nat, Node>)
    requires Anchored(log, tops) && TopsGrow(tops, tops')
    ensures Anchored(log, tops')
  {
    forall i | 0 < i < |log| ensures AnchoredAt(log, i, tops') {
      assert AnchoredAt(log, i, tops);
      assert TopGrows(tops[log[i].term], tops'[log[i].term]);
    }
  }

  lemma AnchoredPrefix(a: Log, b: Log, tops: map<nat, Node>)
    requires Prefix(a, b) && Anchored(b, tops)
    ensures Anchored(a, tops)
  {
    forall i | 0 < i < |a| ensures AnchoredAt(a, i, tops) { assert AnchoredAt(b, i, tops); }
  }

  /** Two anchored logs with entries of the same index and term agree up to them. */
  lemma SameTermAgrees(a: Log, b: Log, i: nat, tops: map<nat, Node>)
    requires LogOk(a) && LogOk(b) && Anchored(a, tops) && Anchored(b, tops)
    requires i < |a| && i < |b| && a[i].term == b[i].term
    ensures Agree(a, b, i + 1)
  {
    if 0 < i {
      assert AnchoredAt(a, i, tops) && AnchoredAt(b, i, tops);
    }
  }

  // ---------- invariant ----------

  /** The latest state of each term's leader: its last entry is of that term, and the node
      is still in that state or has moved to a later term. */
  ghost predicate TopOk(c: Cluster, t: nat, top: Node) {
    && top.role.Leader? && top.term == t && 0 < t && top in c.past && top.id in c.nodes
    && LogOk(top.log) && 2 <= |top.log| && top.log[|top.log| - 1].term == t && Anchored(top.log, c.tops)
    && (c.nodes[top.id].term > t || c.nodes[top.id] == top)
  }

  ghost predicate TopsOk(c: Cluster) {
    && (forall t :: t in c.tops ==> TopOk(c, t, c.tops[t]))
    && (forall i :: i in c.nodes && c.nodes[i].role.Leader? ==> c.nodes[i].term in c.tops && c.tops[c.nodes[i].term] == c.nodes[i])
  }

  /** Every log any node ever had. */
  ghost predicate PastAnchored(c: Cluster) {
    && (forall a :: a in c.past ==> LogOk(a.log) && Anchored(a.log, c.tops))
    && (forall i :: i in c.nodes ==> c.nodes[i] in c.past)
  }

  /** In term `t` the node's log is a prefix of that term's leader's. */
  ghost predicate Synced(c: Cluster, f: nat, t: nat) {
    f in c.nodes && (c.nodes[f].term > t || (c.nodes[f].term == t && t in c.tops && Prefix(c.nodes[f].log, c.tops[t].log)))
  }

  /** At some moment of term `t`, node `f` held a log equal to `log` through index `i`. */
  ghost predicate Held(past: set<Node>, f: nat, t: nat, log: Log, i: nat) {
    exists r :: r in past && r.id == f && r.term == t && Agree(r.log, log, i + 1)
  }

  /** An append is a slice of its leader's log, and an empty one goes to a synced peer. */
  ghost predicate AppOk(c: Cluster, x: Message)
    requires x.App?
  {
    && x.term in c.tops && SliceOf(x, c.tops[x.term].log) && x.commit <= c.tops[x.term].commit
    && (x.entries == [] ==> Synced(c, x.to, x.term))
  }

  ghost predicate SliceOf(x: Message, log: Log)
    requires x.App?
  {
    && x.logIndex + |x.entries| < |log| && log[x.logIndex].term == x.logTerm
    && forall k :: 0 <= k < |x.entries| ==> x.entries[k] == log[x.logIndex + 1 + k]
  }

  ghost predicate RespOk(c: Cluster, x: Message)
    requires x.AppResp?
  {
    if x.reject then
      || (x.logIndex == 0 && x.logTerm == 0)
      || (x.term in c.tops && 0 < x.logIndex < |c.tops[x.term].log| && x.logTerm != x.term)
    else
      && x.term in c.tops && Synced(c, x.from, x.term)
      && Held(c.past, x.from, x.term, c.tops[x.term].log, x.logIndex)
  }

  ghost predicate InFlight(c: Cluster, x: Message) {
    x in c.net || (x.from in c.nodes && x in c.nodes[x.from].msgs)
  }

  ghost predicate MessagesOk(c: Cluster) {
    forall x :: InFlight(c, x) ==> (x.App? ==> AppOk(c, x)) && (x.AppResp? ==> RespOk(c, x))
  }

  ghost predicate PeerOk(c: Cluster, n: Node, f: nat, pr: Progress) {
    && (f != n.id ==> 0 < pr.next <= |n.log| && (pr.next == |n.log| ==> Synced(c, f, n.term)))
    && (pr.match_ == 0 || Held(c.past, f, n.term, n.log, pr.match_))
  }

  ghost predicate ProgressOk(c: Cluster) {
    forall i, f :: i in c.nodes && c.nodes[i].role.Leader? && f in c.nodes[i].prs ==> PeerOk(c, c.nodes[i], f, c.nodes[i].prs[f])
  }

  ghost predicate LogInv(c: Cluster) {
    TopsOk(c) && PastAnchored(c) && MessagesOk(c) && ProgressOk(c)
  }

  lemma InitialLogs(c: Cluster)
    requires Initial(c)
    ensures LogInv(c)
  {
    forall i | i in c.nodes
      ensures !c.nodes[i].role.Leader? && c.nodes[i].msgs == {} && c.nodes[i].log == [SENTINEL] && c.nodes[i] in c.past
    {
      assert InitialNode(c, i, c.nodes[i]);
    }
  }

  // ---------- what grows ----------

  /** Everything a message or a progress entry relies on stays true. */
  ghost predicate Grows(c: Cluster, c': Cluster) {
    && TopsGrow(c.tops, c'.tops) && c.past <= c'.past
    && forall f, t :: Synced(c, f, t) ==> Synced(c', f, t)
  }

  lemma HeldGrows(past: set<Node>, past': set<Node>, f: nat, t: nat, log: Log, log': Log, i: nat)
    requires past <= past' && Prefix(log, log') && Held(past, f, t, log, i)
    ensures Held(past', f, t, log', i)
  {
    var r :| r in past && r.id == f && r.term == t && Agree(r.log, log, i + 1);
    AgreeTransitive(r.log, log, log', i + 1);
  }

  lemma AppGrows(c: Cluster, c': Cluster, x: Message)
    requires Grows(c, c') && x.App? && AppOk(c, x)
    ensures AppOk(c', x)
  {
    hide Synced;
    assert TopGrows(c.tops[x.term], c'.tops[x.term]);
    var a, b := c.tops[x.term].log, c'.tops[x.term].log;
    forall k | 0 <= k < |x.entries| ensures x.entries[k] == b[x.logIndex + 1 + k] {
      assert x.entries[k] == a[x.logIndex + 1 + k];
    }
  }

  lemma RespGrows(c: Cluster, c': Cluster, x: Message)
    requires Grows(c, c') && x.AppResp? && RespOk(c, x)
    ensures RespOk(c', x)
  {
    hide Synced;
    hide Held;
    if x.term in c.tops {
      var a, b := c.tops[x.term].log, c'.tops[x.term].log;
      assert TopGrows(c.tops[x.term], c'.tops[x.term]);
      if !x.reject { HeldGrows(c.past, c'.past, x.from, x.term, a, b, x.logIndex); }
    }
  }
}
