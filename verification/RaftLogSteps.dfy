/** Every call keeps the log invariant. */
module RaftLogSteps {
  import opened RaftNode
  import opened RaftCluster
  import opened RaftFacts
  import opened RaftElection
  import opened RaftMessages
  import opened RaftVotes
  import opened RaftVoteRuns
  import opened RaftLogFacts
  import opened RaftLogs

  // ---------- one log ----------

  lemma TookIsPrefix(log: Log, x: Message, tops: map<nat, Node>)
    requires x.App? && x.term in tops && SliceOf(x, tops[x.term].log)
    requires LogOk(log) && Anchored(log, tops) && LogOk(tops[x.term].log) && Anchored(tops[x.term].log, tops)
    requires x.logIndex < |log| && log[x.logIndex].term == x.logTerm
    ensures Prefix(log[..x.logIndex + 1] + x.entries, tops[x.term].log)
  {
    var top := tops[x.term].log;
    SameTermAgrees(log, top, x.logIndex, tops);
    var new_ := log[..x.logIndex + 1] + x.entries;
    forall k | 0 <= k < |new_| ensures new_[k] == top[k] {
      if x.logIndex < k { assert new_[k] == x.entries[k - x.logIndex - 1]; }
    }
  }

  lemma GrewIsAnchored(log: Log, n': Node, tops: map<nat, Node>)
    requires Anchored(log, tops) && n'.term in tops && tops[n'.term].log == n'.log
    requires |n'.log| == |log| + 1 && n'.log[..|log|] == log && n'.log[|log|].term == n'.term
    ensures Anchored(n'.log, tops)
  {
    forall i | 0 < i < |n'.log| ensures AnchoredAt(n'.log, i, tops) {
      if i < |log| {
        assert AnchoredAt(log, i, tops) && n'.log[i] == log[i];
        assert forall k :: 0 <= k <= i ==> n'.log[k] == log[k];
      }
    }
  }

  /** In the leader's term, the log a matching append leaves is a prefix of the leader's. */
  lemma FittedIsPrefix(c: Cluster, n: Node, m: Message, n': Node)
    requires Fits(n, m, n') && n'.log == Accepted(n.log, m) && AppOk(c, m) && n.term <= n'.term
    requires LogOk(n.log) && Anchored(n.log, c.tops) && TopOk(c, m.term, c.tops[m.term])
    requires m.to in c.nodes && c.nodes[m.to] == n
    ensures Prefix(n'.log, c.tops[m.term].log)
  {
    if m.entries != [] { TookIsPrefix(n.log, m, c.tops); }
  }

  lemma HeldLess(past: set<Node>, f: nat, t: nat, log: Log, i: nat, j: nat)
    requires Held(past, f, t, log, i) && j <= i
    ensures Held(past, f, t, log, j)
  {
    var r :| r in past && r.id == f && r.term == t && Agree(r.log, log, i + 1);
  }

  lemma HeldBySelf(past: set<Node>, n: Node, log: Log, i: nat)
    requires n in past && Agree(n.log, log, i + 1)
    ensures Held(past, n.id, n.term, log, i)
  {}

  lemma HeldBound(past: set<Node>, f: nat, t: nat, log: Log, i: nat)
    requires Held(past, f, t, log, i)
    ensures i < |log|
  {}

  // ---------- the moving node ----------

  /** Node `i` went from `n` to `n'` by `op` inside a cluster that satisfies the invariants. */
  ghost predicate Move(c: Cluster, i: nat, op: Op, c': Cluster) {
    && i in c.nodes && i in c'.nodes && c'.nodes == c.nodes[i := c'.nodes[i]]
    && c'.net == c.net && c'.past == c.past + {c'.nodes[i]} && c.nodes[i].id == i && c'.nodes[i].id == i
    && LogOk(c.nodes[i].log) && LogOk(c'.nodes[i].log)
    && c'.tops == (if c'.nodes[i].role.Leader? then c.tops[c'.nodes[i].term := c'.nodes[i]] else c.tops)
    && (op.Receive? ==> op.m in c.net && op.m.to == i && op.m.from != i && MessageOk(op.m))
    && c.nodes[i].term <= c'.nodes[i].term
    && c.nodes[i].commit <= c'.nodes[i].commit
  }

  /** The leader of `c'.nodes[i]`'s term, if it is a new one, has no predecessor in that term. */
  ghost predicate FreshTerm(c: Cluster, i: nat, c': Cluster)
    requires i in c.nodes && i in c'.nodes
  {
    var n, n' := c.nodes[i], c'.nodes[i];
    n'.role.Leader? && !(n.role.Leader? && n'.term == n.term) ==> n'.term !in c.tops
  }

  lemma NewTermIsFresh(c: Cluster, i: nat, op: Op, c': Cluster)
    requires TopsOk(c) && Move(c, i, op, c') && RoleStep(c.nodes[i], op, c'.nodes[i])
    requires SingleVotes(c') && LeadersElected(c')
    ensures FreshTerm(c, i, c')
  {
    hide SingleVotes;
    hide LeadersElected;
    hide VotesWith;
    hide Anchored;
    var n, n' := c.nodes[i], c'.nodes[i];
    if n'.role.Leader? && !(n.role.Leader? && n'.term == n.term) && n'.term in c.tops {
      var top := c.tops[n'.term];
      assert TopOk(c, n'.term, top);
      OneLeader(c', n', top);
      assert false;
    }
  }

  lemma TopsStep(c: Cluster, i: nat, op: Op, c': Cluster)
    requires TopsOk(c) && Move(c, i, op, c') && FreshTerm(c, i, c') && LogStep(c.nodes[i], op, c'.nodes[i])
    ensures TopsGrow(c.tops, c'.tops)
  {
    hide TopOk;
    hide LogOk;
    var n, n' := c.nodes[i], c'.nodes[i];
    forall t | t in c.tops ensures TopGrows(c.tops[t], c'.tops[t]) {
      if n'.role.Leader? && t == n'.term {
        assert c.tops[t] == n;
        if Grew(n, n') { assert forall k :: 0 <= k < |n.log| ==> n'.log[k] == n'.log[..|n.log|][k]; }
      }
    }
  }

  lemma MovedStaysSynced(c: Cluster, i: nat, op: Op, c': Cluster, t: nat)
    requires Move(c, i, op, c') && LogStep(c.nodes[i], op, c'.nodes[i]) && TopsGrow(c.tops, c'.tops)
    requires Anchored(c.nodes[i].log, c.tops) && (forall u :: u in c.tops ==> TopOk(c, u, c.tops[u]))
    requires op.Receive? && op.m.App? ==> AppOk(c, op.m)
    requires Synced(c, i, t)
    ensures Synced(c', i, t)
  {
    var n, n' := c.nodes[i], c'.nodes[i];
    if n'.term == t {
      assert TopGrows(c.tops[t], c'.tops[t]);
      if op.Receive? && Took(n, op.m, n') {
        FittedIsPrefix(c, n, op.m, n');
      }
    }
  }

  lemma SyncedStep(c: Cluster, i: nat, op: Op, c': Cluster)
    requires TopsOk(c) && PastAnchored(c) && Move(c, i, op, c') && LogStep(c.nodes[i], op, c'.nodes[i])
    requires TopsGrow(c.tops, c'.tops) && (op.Receive? && op.m.App? ==> AppOk(c, op.m))
    ensures Grows(c, c')
  {
    hide LogStep;
    hide TopOk;
    hide AppOk;
    hide Anchored;
    hide LogOk;
    forall f, t | Synced(c, f, t) ensures Synced(c', f, t) {
      if f == i {
        MovedStaysSynced(c, i, op, c', t);
      } else if c.nodes[f].term == t {
        assert TopGrows(c.tops[t], c'.tops[t]);
      }
    }
  }

  lemma MovedIsAnchored(c: Cluster, i: nat, op: Op, c': Cluster)
    requires Move(c, i, op, c') && LogStep(c.nodes[i], op, c'.nodes[i]) && TopsGrow(c.tops, c'.tops)
    requires Anchored(c.nodes[i].log, c.tops) && (forall u :: u in c.tops ==> TopOk(c, u, c.tops[u]))
    requires op.Receive? && op.m.App? ==> AppOk(c, op.m)
    ensures Anchored(c'.nodes[i].log, c'.tops)
  {
    var n, n' := c.nodes[i], c'.nodes[i];
    AnchoredGrows(n.log, c.tops, c'.tops);
    if Kept(n, n') {
    } else if Grew(n, n') {
      GrewIsAnchored(n.log, n', c'.tops);
    } else if Took(n, op.m, n') {
      FittedIsPrefix(c, n, op.m, n');
      AnchoredPrefix(n'.log, c.tops[op.m.term].log, c.tops);
      AnchoredGrows(n'.log, c.tops, c'.tops);
    } else {
      AnchoredPrefix(n'.log, n.log, c'.tops);
    }
  }

  lemma AnchoredStep(c: Cluster, i: nat, op: Op, c': Cluster)
    requires TopsOk(c) && PastAnchored(c) && Move(c, i, op, c') && LogStep(c.nodes[i], op, c'.nodes[i])
    requires TopsGrow(c.tops, c'.tops) && (op.Receive? && op.m.App? ==> AppOk(c, op.m))
    ensures PastAnchored(c')
  {
    hide LogStep;
    hide TopOk;
    hide AppOk;
    hide Anchored;
    hide TopsGrow;
    hide LogOk;
    MovedIsAnchored(c, i, op, c');
    forall a | a in c'.past ensures LogOk(a.log) && Anchored(a.log, c'.tops) {
      if a in c.past { AnchoredGrows(a.log, c.tops, c'.tops); }
    }
  }

  /** The leader's last entry is of its own term. */
  lemma LastIsOwn(c: Cluster, i: nat, op: Op, c': Cluster)
    requires TopsOk(c) && Move(c, i, op, c') && LogStep(c.nodes[i], op, c'.nodes[i]) && c'.nodes[i].role.Leader?
    ensures var log := c'.nodes[i].log; 2 <= |log| && log[|log| - 1].term == c'.nodes[i].term
  {
    var n, n' := c.nodes[i], c'.nodes[i];
    if Kept(n, n') { assert TopOk(c, n.term, c.tops[n.term]); }
  }

  lemma OldTopOk(c: Cluster, i: nat, op: Op, c': Cluster, t: nat)
    requires t in c.tops && TopOk(c, t, c.tops[t]) && Move(c, i, op, c') && TopsGrow(c.tops, c'.tops)
    requires c.nodes[i].role.Leader? && c'.nodes[i].term == c.nodes[i].term ==> c'.nodes[i].role.Leader?
    requires !(c'.nodes[i].role.Leader? && t == c'.nodes[i].term)
    ensures t in c'.tops && TopOk(c', t, c'.tops[t])
  {
    AnchoredGrows(c.tops[t].log, c.tops, c'.tops);
    hide TopsGrow;
    hide Anchored;
    hide LogOk;
  }

  lemma NewTopOk(c: Cluster, i: nat, op: Op, c': Cluster)
    requires TopsOk(c) && Move(c, i, op, c') && LogStep(c.nodes[i], op, c'.nodes[i]) && PastAnchored(c')
    requires c'.nodes[i].role.Leader? && 0 < c'.nodes[i].term
    ensures TopOk(c', c'.nodes[i].term, c'.nodes[i])
  {
    LastIsOwn(c, i, op, c');
    hide LogStep;
    hide Anchored;
    hide TopsOk;
  }

  /** Leaders are the latest states of their terms. */
  lemma LeadersAreTops(c: Cluster, i: nat, op: Op, c': Cluster, j: nat)
    requires TopsOk(c) && Move(c, i, op, c') && FreshTerm(c, i, c')
    requires forall k :: k in c.nodes ==> c.nodes[k].id == k
    requires j in c'.nodes && c'.nodes[j].role.Leader?
    ensures c'.nodes[j].term in c'.tops && c'.tops[c'.nodes[j].term] == c'.nodes[j]
  {
    hide TopOk;
    hide LogOk;
  }

  lemma TopsOkStep(c: Cluster, i: nat, op: Op, c': Cluster)
    requires TopsOk(c) && Move(c, i, op, c') && FreshTerm(c, i, c') && LogStep(c.nodes[i], op, c'.nodes[i])
    requires TopsGrow(c.tops, c'.tops) && PastAnchored(c')
    requires forall j :: j in c.nodes ==> c.nodes[j].id == j
    requires c.nodes[i].role.Leader? && c'.nodes[i].term == c.nodes[i].term ==> c'.nodes[i].role.Leader?
    requires c'.nodes[i].role.Leader? ==> 0 < c'.nodes[i].term
    ensures TopsOk(c')
  {
    hide LogStep;
    hide TopsGrow;
    hide LogOk;
    hide TopOk;
    hide PastAnchored;
    hide FreshTerm;
    var n' := c'.nodes[i];
    if n'.role.Leader? { NewTopOk(c, i, op, c'); }
    forall t | t in c'.tops ensures TopOk(c', t, c'.tops[t]) {
      if !(n'.role.Leader? && t == n'.term) { OldTopOk(c, i, op, c', t); }
    }
    forall j | j in c'.nodes && c'.nodes[j].role.Leader?
      ensures c'.nodes[j].term in c'.tops && c'.tops[c'.nodes[j].term] == c'.nodes[j]
    {
      LeadersAreTops(c, i, op, c', j);
    }
  }

  // ---------- progress ----------

  lemma AdjustedIsOk(c: Cluster, c': Cluster, n: Node, m: Message, pr: Progress)
    requires m.AppResp? && RespOk(c, m) && m.term == n.term && n.term in c.tops && c.tops[n.term] == n && TopOk(c, n.term, n)
    requires m.from != n.id && PeerOk(c, n, m.from, pr)
    ensures PeerOk(c, n, m.from, Adjusted(n.log, pr, m))
  {
    hide Anchored;
    hide LogOk;
    hide Synced;
    var pr' := Adjusted(n.log, pr, m);
    if m.reject {
      hide Held;
      if pr.match_ != 0 && pr'.match_ != 0 { HeldLess(c.past, m.from, n.term, n.log, pr.match_, pr'.match_); }
    } else {
      HeldBound(c.past, m.from, n.term, n.log, m.logIndex);
    }
  }

  lemma PeerGrows(c: Cluster, c': Cluster, n: Node, n': Node, f: nat, pr: Progress)
    requires Grows(c, c') && PeerOk(c, n, f, pr) && n'.term == n.term && n'.id == n.id && Prefix(n.log, n'.log)
    ensures PeerOk(c', n', f, pr)
  {
    hide Synced;
    hide Held;
    hide TopsGrow;
    if pr.match_ != 0 { HeldGrows(c.past, c'.past, f, n.term, n.log, n'.log, pr.match_); }
  }

  lemma LeaderPeerStep(c: Cluster, i: nat, op: Op, c': Cluster, f: nat)
    requires TopsOk(c) && ProgressOk(c) && Move(c, i, op, c') && Grows(c, c')
    requires ProgressStep(c.nodes[i], op, c'.nodes[i]) && (op.Receive? && op.m.AppResp? ==> RespOk(c, op.m))
    requires Kept(c.nodes[i], c'.nodes[i]) || Grew(c.nodes[i], c'.nodes[i])
    requires c'.nodes[i].role.Leader? && f in c'.nodes[i].prs
    ensures PeerOk(c', c'.nodes[i], f, c'.nodes[i].prs[f])
  {
    hide Synced;
    hide TopsGrow;
    hide RespOk;
    hide Adjusted;
    var n, n' := c.nodes[i], c'.nodes[i];
    assert Prefix(n.log, n'.log) by {
      if Grew(n, n') { assert forall k :: 0 <= k < |n.log| ==> n'.log[k] == n'.log[..|n.log|][k]; }
    }
    if f == i && n'.prs[f] == Progress(|n.log|, |n.log| + 1) && Grew(n, n') {
      HeldBySelf(c'.past, n', n'.log, |n.log|);
    } else if n.role.Leader? && n'.term == n.term {
      assert PeerOk(c, n, f, n.prs[f]) && TopOk(c, n.term, n);
      if n'.prs[f] == n.prs[f] {
        PeerGrows(c, c', n, n', f, n.prs[f]);
      } else {
        AdjustedIsOk(c, c', n, op.m, n.prs[f]);
        PeerGrows(c, c', n, n', f, n'.prs[f]);
      }
    }
  }

  lemma ProgressesStep(c: Cluster, i: nat, op: Op, c': Cluster)
    requires TopsOk(c) && ProgressOk(c) && Move(c, i, op, c') && Grows(c, c')
    requires ProgressStep(c.nodes[i], op, c'.nodes[i]) && (op.Receive? && op.m.AppResp? ==> RespOk(c, op.m))
    requires c'.nodes[i].role.Leader? ==> Kept(c.nodes[i], c'.nodes[i]) || Grew(c.nodes[i], c'.nodes[i])
    ensures ProgressOk(c')
  {
    hide PeerOk;
    hide ProgressStep;
    hide TopsOk;
    hide Grows;
    hide RespOk;
    hide LogOk;
    hide Kept;
    hide Grew;
    forall j, f | j in c'.nodes && c'.nodes[j].role.Leader? && f in c'.nodes[j].prs
      ensures PeerOk(c', c'.nodes[j], f, c'.nodes[j].prs[f])
    {
      if j == i {
        LeaderPeerStep(c, i, op, c', f);
      } else {
        PeerGrows(c, c', c.nodes[j], c.nodes[j], f, c.nodes[j].prs[f]);
      }
    }
  }

  // ---------- messages ----------

  lemma NewAppendOk(c': Cluster, n': Node, x: Message)
    requires n'.role.Leader? && IsAppend(n', x) && PeerOk(c', n', x.to, n'.prs[x.to])
    requires n'.term in c'.tops && c'.tops[n'.term] == n' && n'.id in c'.nodes
    ensures AppOk(c', x)
  {
    hide Synced;
    hide Held;
  }

  lemma NewAnswerOk(c: Cluster, i: nat, op: Op, c': Cluster, x: Message)
    requires TopsOk(c) && PastAnchored(c) && Move(c, i, op, c') && Grows(c, c') && i == x.from
    requires AnswerStep(c.nodes[i], op, c'.nodes[i]) && x in c'.nodes[i].msgs && x !in c.nodes[i].msgs && x.AppResp?
    requires op.Receive? && op.m.App? ==> AppOk(c, op.m)
    ensures RespOk(c', x)
  {
    var n, n', m := c.nodes[i], c'.nodes[i], op.m;
    if !(x.reject && x.logIndex == 0 && x.logTerm == 0) {
      assert x.term == m.term == n'.term;
      var top := c.tops[m.term];
      assert TopOk(c, m.term, top) && TopGrows(top, c'.tops[m.term]);
      assert Anchored(n.log, c.tops);
      if x.reject {
        RefusalIsOk(n, m, x, top, c.tops);
      } else {
        GrantIsOk(c, n, m, n');
        AgreeTransitive(n'.log, top.log, c'.tops[m.term].log, |n'.log|);
        HeldBySelf(c'.past, n', c'.tops[m.term].log, x.logIndex);
      }
    }
  }

  lemma RefusalIsOk(n: Node, m: Message, x: Message, top: Node, tops: map<nat, Node>)
    requires m.App? && x.AppResp? && Refused(n, m, x) && MessageOk(m) && m.term in tops && tops[m.term] == top && 0 < m.term
    requires LogOk(n.log) && Anchored(n.log, tops) && SliceOf(m, top.log)
    ensures 0 < x.logIndex < |top.log| && x.logTerm != m.term
  {
    if 0 < m.logIndex < |n.log| { assert AnchoredAt(n.log, m.logIndex, tops); }
  }

  lemma GrantIsOk(c: Cluster, n: Node, m: Message, n': Node)
    requires Fits(n, m, n') && n'.log == Accepted(n.log, m) && AppOk(c, m) && n.term <= n'.term
    requires LogOk(n.log) && Anchored(n.log, c.tops) && TopOk(c, m.term, c.tops[m.term])
    requires m.to in c.nodes && c.nodes[m.to] == n && LogOk(n'.log)
    ensures Prefix(n'.log, c.tops[m.term].log) && 0 < |n'.log|
  {
    FittedIsPrefix(c, n, m, n');
  }

  lemma MessagesStep(c: Cluster, i: nat, op: Op, c': Cluster)
    requires TopsOk(c) && PastAnchored(c) && MessagesOk(c) && Move(c, i, op, c') && Grows(c, c')
    requires TopsOk(c') && ProgressOk(c')
    requires Sends(c.nodes[i], op, c'.nodes[i]) && AnswerStep(c.nodes[i], op, c'.nodes[i])
    requires forall x :: x in c'.nodes[i].msgs ==> x.from == i
    ensures MessagesOk(c')
  {
    hide AppOk;
    hide RespOk;
    hide Grows;
    hide AnswerStep;
    hide TopOk;
    hide PeerOk;
    hide LogOk;
    hide PastAnchored;
    var n, n' := c.nodes[i], c'.nodes[i];
    forall x | InFlight(c', x) ensures (x.App? ==> AppOk(c', x)) && (x.AppResp? ==> RespOk(c', x)) {
      if InFlight(c, x) {
        if x.App? { AppGrows(c, c', x); } else if x.AppResp? { RespGrows(c, c', x); }
      } else {
        assert x in n'.msgs && x !in n.msgs;
        assert op.Receive? ==> InFlight(c, op.m);
        if x.App? {
          assert IsAppend(n', x) && PeerOk(c', n', x.to, n'.prs[x.to]);
          NewAppendOk(c', n', x);
        } else if x.AppResp? {
          NewAnswerOk(c, i, op, c', x);
        }
      }
    }
  }
}
