/** What one call changes in a node, handler by handler. */
module RaftFacts {
  import opened Bytes
  import opened RaftNode

  /** New appends a leader in state `n` may have in its outbox. */
  ghost predicate IsAppend(n: Node, x: Message) {
    && x.App? && x.from == n.id && x.term == n.term && x.to in n.prs && x.to != n.id
    && 0 < n.prs[x.to].next && x.logIndex == n.prs[x.to].next - 1
    && x.logTerm == TermAt(n.log, x.logIndex) && x.entries == From(n.log, x.logIndex + 1)
    && x.commit <= n.commit
    && (x.readId != 0 ==> x.readId in Started(n))
  }

  /** Everything but commit, read rounds and Ready stays, and only appends are added. */
  ghost predicate Quiet(n: Node, n': Node) {
    && n' == n.(commit := n'.commit, pending := n'.pending, rounds := n'.rounds, readStates := n'.readStates, msgs := n'.msgs)
    && n.commit <= n'.commit
    && (n'.pending == n.pending || n'.pending == Some(HardOf(n')))
    && n.msgs <= n'.msgs
    && (forall x :: x in n'.msgs && x !in n.msgs ==> IsAppend(n', x))
  }

  lemma QuietTransitive(a: Node, b: Node, c: Node)
    requires Quiet(a, b) && Quiet(b, c)
    requires Started(b) <= Started(c)
    requires c.commit == b.commit || c.pending == Some(HardOf(c))
    ensures Quiet(a, c)
  {
    forall x | x in c.msgs && x !in a.msgs ensures IsAppend(c, x) {
      if x in b.msgs { assert IsAppend(b, x); }
    }
  }

  lemma BroadcastIsQuiet(n: Node)
    ensures Quiet(n, Broadcast(n, 0)) && Started(Broadcast(n, 0)) == Started(n)
  {}

  lemma StartRoundsIsQuiet(n: Node, ids: set<nat>)
    requires ids <= Waiting(n) && 0 !in n.rounds
    ensures Quiet(n, StartRounds(n, ids))
    ensures Started(n) <= Started(StartRounds(n, ids))
  {
    var n' := StartRounds(n, ids);
    if Quorum(n) > 1 {
      forall r | r in ids ensures r in Started(n') { assert r in n.rounds; }
    }
    forall r | r in Started(n) ensures r in Started(n') { assert r !in ids; }
  }

  lemma CommitToIsQuiet(n: Node, i: nat)
    requires 0 !in n.rounds
    ensures Quiet(n, CommitTo(n, i)) && Started(n) <= Started(CommitTo(n, i))
    ensures CommitTo(n, i).commit == if i > n.commit then i else n.commit
    ensures CommitTo(n, i).commit != n.commit ==> CommitTo(n, i).pending == Some(HardOf(CommitTo(n, i)))
  {
    if i > n.commit {
      var a := MarkHard(n.(commit := i));
      assert Started(a) == Started(n);
      if a.role.Leader? && CommittedInTerm(a) { StartRoundsIsQuiet(a, Waiting(a)); }
    }
  }

  lemma MaybeCommitIsQuiet(n: Node)
    requires NodeOk(n) && 0 !in n.rounds
    ensures Quiet(n, MaybeCommit(n)) && Started(n) <= Started(MaybeCommit(n))
    ensures MaybeCommit(n).commit != n.commit ==> MaybeCommit(n).pending == Some(HardOf(MaybeCommit(n)))
  {
    hide CommitTo;
    CommitToIsQuiet(n, QuorumMatch(n.prs));
  }

  /** The node with the entry added and its own progress moved, before anything is sent. */
  function Appended(n: Node, data: Bytes): Node {
    n.(log := n.log + [LogEntry(n.term, data)], prs := n.prs[n.id := Progress(|n.log|, |n.log| + 1)])
  }

  lemma AppendEntryFacts(n: Node, data: Bytes)
    requires NodeOk(n) && 0 < n.term && 0 !in n.rounds
    ensures NodeOk(Appended(n, data)) && Quiet(Appended(n, data), AppendEntry(n, data))
  {
    hide MaybeCommit;
    hide LogOk;
    GrownLogOk(n.log, LogEntry(n.term, data));
    var a := Appended(n, data);
    var b := Broadcast(a, 0);
    BroadcastIsQuiet(a);
    MaybeCommitIsQuiet(b);
    QuietTransitive(a, b, MaybeCommit(b));
  }

  /** A node that has just won, before its first entry. */
  function Won(n: Node): Node {
    n.(role := Leader, lead := n.id, heartbeatElapsed := 0, prs := FreshProgress(n.prs, |n.log|))
  }

  lemma BecomeLeaderFacts(n: Node)
    requires NodeOk(n) && 0 < n.term && 0 !in n.rounds
    ensures NodeOk(Won(n)) && Quiet(Appended(Won(n), []), BecomeLeader(n))
  {
    hide AppendEntry;
    AppendEntryFacts(Won(n), []);
  }
}
