/** What each call owes its caller, in terms of messages, logs and answers: whom a
    candidate asks, when votes decide, what a leader sends, how an append is answered,
    when an election or a heartbeat is due, and when a read round starts and completes. */
module RaftLaws {
  import opened Bytes
  import opened RaftNode
  import opened RaftCluster
  import opened RaftFacts
  import opened RaftElection

  // ---------- offers ----------

  /** The append `x` shows peer `f` everything of `n`'s log from the peer's next index on. */
  ghost predicate Offers(n: Node, f: nat, x: Message)
    requires f in n.prs
  {
    && x.App? && x.from == n.id && x.to == f && x.term == n.term
    && 0 < n.prs[f].next && x.logIndex == n.prs[f].next - 1
    && (x.logIndex < |n.log| ==> x.logTerm == n.log[x.logIndex].term && x.entries == n.log[x.logIndex + 1..])
  }

  /** Every other peer whose next entry is in the log has been offered it, tagged `readId`. */
  ghost predicate OffersAll(n: Node, readId: nat) {
    forall f :: f in n.prs && f != n.id && 0 < n.prs[f].next ==> exists x :: x in n.msgs && Offers(n, f, x) && x.readId == readId
  }

  lemma OfferedAll(n: Node, n': Node, readId: nat)
    requires n'.prs == n.prs && n'.log == n.log && n'.term == n.term && n'.id == n.id && Appends(n, readId) <= n'.msgs
    ensures OffersAll(n', readId)
  {
    forall f | f in n'.prs && f != n'.id && 0 < n'.prs[f].next
      ensures exists x :: x in n'.msgs && Offers(n', f, x) && x.readId == readId
    {
      var x := AppFor(n, f, readId);
      assert x in Appends(n, readId);
      assert Offers(n', f, x);
    }
  }

  // ---------- campaigns ----------

  /** Every other peer is asked, with the last entry of the candidate's log. */
  ghost predicate AsksEveryone(n: Node) {
    n.log != [] && forall f :: f in n.prs && f != n.id ==>
      Vote(n.id, f, n.term, |n.log| - 1, n.log[|n.log| - 1].term) in n.msgs
  }

  /** `n'` leads the term with one new empty entry on the log `log`, known to itself only,
      and has offered every other peer that entry after the last one of `log`. */
  ghost predicate Announced(n': Node, log: seq<LogEntry>) {
    && n'.role.Leader? && n'.lead == n'.id && n'.heartbeatElapsed == 0 && log != [] && n'.log == log + [LogEntry(n'.term, [])]
    && (forall f :: f in n'.prs ==> n'.prs[f] == if f == n'.id then Progress(|log|, |log| + 1) else Progress(0, |log|))
    && OffersAll(n', 0)
  }

  lemma WinnerAnnounces(n: Node)
    requires NodeOk(n) && 0 < n.term && n.rounds == map[]
    ensures Announced(BecomeLeader(n), n.log) && BecomeLeader(n).term == n.term
  {
    assert n.log != [];
    hide MaybeCommit;
    hide LogOk;
    hide Appends;
    GrownLogOk(n.log, LogEntry(n.term, []));
    var a := Appended(Won(n), []);
    var b := Broadcast(a, 0);
    MaybeCommitIsQuiet(b);
    OfferedAll(a, BecomeLeader(n), 0);
    hide OffersAll;
  }

  /** A campaign opens the next term with a vote for oneself and asks every other peer;
      a node without peers wins at once. */
  lemma CampaignAsksEveryone(n: Node)
    requires NodeOk(n) && !n.role.Leader?
    ensures var n' := Hup(n);
      && n'.term == n.term + 1 && n'.vote == n.id && n'.electionElapsed == 0
      && (if |n.prs| == 1 then Announced(n', n.log)
          else n'.role.Candidate? && n'.log == n.log && n'.prs == n.prs && AsksEveryone(n'))
  {
    hide BecomeLeader;
    var a := BecomeCandidate(n);
    if |n.prs| == 1 {
      WinnerAnnounces(a);
      WinnerKeepsVote(a);
    } else {
      forall f | f in n.prs && f != n.id
        ensures Vote(n.id, f, a.term, |n.log| - 1, n.log[|n.log| - 1].term) in VoteRequests(a)
      {}
    }
  }

  lemma WinnerKeepsVote(n: Node)
    requires NodeOk(n) && 0 < n.term && n.rounds == map[]
    ensures BecomeLeader(n).vote == n.vote && BecomeLeader(n).electionElapsed == n.electionElapsed
  {
    hide BecomeLeader;
    BecomeLeaderFacts(n);
  }

  // ---------- counting votes ----------

  /** An answer to a candidate decides the election when it completes a majority of
      grants or of refusals, and is only recorded otherwise. */
  lemma VotesDecide(n: Node, m: Message)
    requires NodeOk(n) && n.role.Candidate? && n.rounds == map[] && m.VoteResp? && m.term <= n.term
    ensures var n' := Step(n, m);
      var votes := n.votes[m.from := !m.reject];
      var granted, refused := set f | f in votes && votes[f], set f | f in votes && !votes[f];
      if |granted| >= |n.prs| / 2 + 1 then Announced(n', n.log) && n'.term == n.term
      else if |refused| >= |n.prs| / 2 + 1 then n'.role.Follower? && n'.term == n.term && n'.vote == n.vote && n'.log == n.log
      else n' == n.(votes := votes)
  {
    hide BecomeLeader;
    var votes := n.votes[m.from := !m.reject];
    var a := n.(votes := votes);
    WinnerAnnounces(a);
    assert (set f | f in votes && votes[f]) == Supporters(votes);
    assert (set f | f in votes && !votes[f]) == Opponents(votes);
  }

  // ---------- appends ----------

  /** A proposal at a leader becomes the last entry, under the leader's term, and is
      offered to every other peer; elsewhere it is dropped. */
  lemma ProposalIsOffered(n: Node, data: Bytes)
    requires NodeOk(n) && 0 !in n.rounds
    ensures var n' := Propose(n, data);
      if n.role.Leader? then
        && n'.role.Leader? && n'.term == n.term && n'.log == n.log + [LogEntry(n.term, data)]
        && n'.prs == n.prs[n.id := Progress(|n.log|, |n.log| + 1)] && OffersAll(n', 0)
      else n' == n
  {
    hide MaybeCommit;
    hide LogOk;
    hide Appends;
    if n.role.Leader? {
      GrownLogOk(n.log, LogEntry(n.term, data));
      var a := Appended(n, data);
      MaybeCommitIsQuiet(Broadcast(a, 0));
      OfferedAll(a, Propose(n, data), 0);
    }
  }

  /** What the follower `n'` holds after an append it could not match at `index`: its log
      up to the run of equal terms that covers `index`. */
  ghost predicate CutBefore(log: seq<LogEntry>, index: nat, log': seq<LogEntry>)
    requires index < |log|
  {
    var first := |log'|;
    && first <= index && log' == log[..first]
    && (forall k :: first <= k <= index ==> log[k].term == log[index].term)
    && (0 < first ==> log[first - 1].term != log[index].term)
  }

  lemma {:induction false} RunStartIs(log: seq<LogEntry>, i: nat)
    requires i < |log|
    ensures CutBefore(log, i, log[..RunStart(log, i)])
  {
    if 0 < i && log[i - 1].term == log[i].term { RunStartIs(log, i - 1); }
  }

  /** The log after taking `m`: kept through the matched entry, then exactly the entries
      sent; with none sent the log stays. */
  ghost predicate HasTaken(log: seq<LogEntry>, m: Message, log': seq<LogEntry>)
    requires m.App? && m.logIndex < |log|
  {
    && (m.entries == [] ==> log' == log)
    && (m.entries != [] ==>
          && |log'| == m.logIndex + 1 + |m.entries|
          && log'[..m.logIndex + 1] == log[..m.logIndex + 1] && log'[m.logIndex + 1..] == m.entries)
  }

  /** How an append is answered: refused with the node's term if it is of an earlier one;
      refused with the log's length if the log is too short; refused with the term and
      start of the conflicting run, which is cut off, if the previous entry differs; and
      otherwise taken, with the commit index advanced no further than the log. */
  ghost predicate Answered(n: Node, m: Message, n': Node)
    requires m.App?
  {
    if m.term < n.term then
      n' == n.(msgs := n.msgs + {AppResp(n.id, m.from, n.term, true, 0, 0, m.readId)})
    else
      && n'.role.Follower? && n'.term == m.term && n'.lead == m.from && n'.electionElapsed == 0
      && n'.vote == (if m.term > n.term then 0 else n.vote)
      && if m.logIndex >= |n.log| then
           && n'.log == n.log && n'.commit == n.commit
           && n'.msgs == n.msgs + {AppResp(n.id, m.from, m.term, true, |n.log|, 0, m.readId)}
         else if n.log[m.logIndex].term != m.logTerm then
           && CutBefore(n.log, m.logIndex, n'.log) && n'.commit == n.commit
           && n'.msgs == n.msgs + {AppResp(n.id, m.from, m.term, true, |n'.log|, n.log[m.logIndex].term, m.readId)}
         else
           && n'.log != [] && HasTaken(n.log, m, n'.log)
           && n'.commit == Largest(n.commit, Smallest(m.commit, |n'.log| - 1))
           && n'.msgs == n.msgs + {AppResp(n.id, m.from, m.term, false, |n'.log| - 1, 0, m.readId)}
  }

  function Largest(a: nat, b: nat): nat { if a > b then a else b }

  function Smallest(a: nat, b: nat): nat { if a < b then a else b }

  lemma Taken(log: seq<LogEntry>, m: Message)
    requires m.App? && m.logIndex < |log|
    ensures HasTaken(log, m, Accepted(log, m)) && Accepted(log, m) != []
  {}

  lemma MatchIsAnswered(n: Node, m: Message)
    requires NodeOk(n) && m.App? && m.term == n.term && !n.role.Leader?
    requires m.logIndex < |n.log| && n.log[m.logIndex].term == m.logTerm
    ensures Answered(n, m, HandleAppend(n, m))
  {
    Taken(n.log, m);
    hide HasTaken;
    hide Accepted;
    hide RunStart;
    hide CutBefore;
    var a := BecomeFollower(n, m.term, m.from).(log := Accepted(n.log, m));
    FollowerStartsNothing(a, Smallest(m.commit, |a.log| - 1));
  }

  lemma MismatchIsAnswered(n: Node, m: Message)
    requires NodeOk(n) && m.App? && m.term == n.term && !n.role.Leader?
    requires m.logIndex < |n.log| ==> n.log[m.logIndex].term != m.logTerm
    ensures Answered(n, m, HandleAppend(n, m))
  {
    hide CommitTo;
    hide HasTaken;
    hide Accepted;
    if m.logIndex < |n.log| { RunStartIs(n.log, m.logIndex); }
    hide CutBefore;
    hide RunStart;
  }

  /** Every append that reaches a node other than a leader of its term or a later one is
      answered, once, as `Answered` says. */
  lemma AppendIsAnswered(n: Node, m: Message)
    requires NodeOk(n) && m.App? && !(n.role.Leader? && m.term <= n.term)
    ensures Answered(n, m, Step(n, m))
  {
    hide CutBefore;
    hide HasTaken;
    if m.term < n.term {
    } else {
      hide HandleAppend;
      var a := if m.term > n.term then BecomeFollower(n, m.term, 0) else n;
      if m.logIndex < |n.log| && n.log[m.logIndex].term == m.logTerm {
        MatchIsAnswered(a, m);
      } else {
        MismatchIsAnswered(a, m);
      }
    }
  }

  // ---------- what a leader makes of the answer ----------

  /** After an acceptance of index `k` the peer is known to hold the leader's log through
      `k`, or through its end. After a refusal the leader goes on behind its last entry of
      the conflicting term, or, if it has none, at the index the peer named (with an
      index of zero the unsigned match index wraps). */
  ghost predicate ProgressLaw(log: seq<LogEntry>, pr: Progress, m: Message, pr': Progress)
    requires m.AppResp? && log != []
  {
    if !m.reject then
      pr' == if m.logIndex < |log| then Progress(m.logIndex, m.logIndex + 1) else Progress(|log| - 1, |log|)
    else
      && pr'.match_ == (if pr'.next == 0 then TWO_64 - 1 else Smallest(pr.match_, pr'.next - 1))
      && (m.logTerm == 0 ==> pr'.next == Largest(m.logIndex, 1))
      && (m.logTerm != 0 ==>
            || (0 < pr'.next <= |log| && log[pr'.next - 1].term == m.logTerm
                && forall k :: pr'.next <= k < |log| ==> log[k].term != m.logTerm)
            || (pr'.next == m.logIndex && forall k :: 0 <= k < |log| ==> log[k].term != m.logTerm))
  }

  lemma {:induction false} FindLastIs(log: seq<LogEntry>, term: nat, n: nat)
    requires n <= |log|
    ensures match FindLast(log, term, n)
      case Some(i) => i < n && log[i].term == term && forall k :: i < k < n ==> log[k].term != term
      case None => forall k :: 0 <= k < n ==> log[k].term != term
  {
    if n > 0 && log[n - 1].term != term { FindLastIs(log, term, n - 1); }
  }

  lemma AdjustedLaw(log: seq<LogEntry>, pr: Progress, m: Message)
    requires m.AppResp? && log != []
    ensures ProgressLaw(log, pr, m, Adjusted(log, pr, m))
  {
    FindLastIs(log, m.logTerm, |log|);
    hide FindLast;
  }

  /** An answer in the leader's term moves exactly the sender's progress, by `ProgressLaw`;
      answers of other terms or from strangers change nothing. */
  lemma AnswerMovesProgress(n: Node, m: Message)
    requires NodeOk(n) && n.role.Leader? && 0 !in n.rounds && m.AppResp? && m.term <= n.term
    ensures var n' := Step(n, m);
      if m.term == n.term && m.from in n.prs then
        && n'.role.Leader? && n'.term == n.term && n'.log == n.log && n'.prs.Keys == n.prs.Keys
        && (forall f :: f in n.prs && f != m.from ==> n'.prs[f] == n.prs[f])
        && ProgressLaw(n.log, n.prs[m.from], m, n'.prs[m.from])
      else n' == n
  {
    assert n.log != [];
    hide MaybeCommit;
    hide LogOk;
    if m.term == n.term && m.from in n.prs {
      AdjustedLaw(n.log, n.prs[m.from], m);
      hide ProgressLaw;
      hide Adjusted;
      var a := AckRound(n, m.readId, m.from);
      var b := a.(prs := a.prs[m.from := Adjusted(n.log, n.prs[m.from], m)]);
      assert b.prs.Keys == n.prs.Keys;
      MaybeCommitIsQuiet(b);
    }
  }

  // ---------- clocks ----------

  /** The node after one tick per element of `jitters`. */
  ghost function AfterTicks(n: Node, jitters: seq<nat>): Node
    requires NodeOk(n) && !n.role.Leader?
    requires forall k :: 0 <= k < |jitters| ==> n.electionElapsed + k + 1 < n.electionTimeout + jitters[k]
    decreases |jitters|
  {
    if jitters == [] then n else AfterTicks(Tick(n, jitters[0]), jitters[1..])
  }

  /** While every tick finds the randomised timeout not yet reached, ticks only count. */
  lemma {:induction false} NoEarlyElection(n: Node, jitters: seq<nat>)
    requires NodeOk(n) && !n.role.Leader?
    requires forall k :: 0 <= k < |jitters| ==> n.electionElapsed + k + 1 < n.electionTimeout + jitters[k]
    ensures AfterTicks(n, jitters) == n.(electionElapsed := n.electionElapsed + |jitters|)
    decreases |jitters|
  {
    hide Campaign;
    if jitters != [] {
      NoEarlyElection(Tick(n, jitters[0]), jitters[1..]);
    }
  }

  /** The first tick that reaches its timeout starts a campaign, and no earlier one does. */
  lemma ElectionFiresInTime(n: Node, jitters: seq<nat>, jitter: nat)
    requires NodeOk(n) && !n.role.Leader?
    requires forall k :: 0 <= k < |jitters| ==> n.electionElapsed + k + 1 < n.electionTimeout + jitters[k]
    requires n.electionElapsed + |jitters| + 1 >= n.electionTimeout + jitter
    ensures var a := AfterTicks(n, jitters);
      && a.term == n.term && a.role == n.role && a.msgs == n.msgs && NodeOk(a)
      && var n' := Tick(a, jitter);
         && n'.term == n.term + 1 && n'.vote == n.id
         && if |n.prs| == 1 then Announced(n', n.log) else n'.role.Candidate? && n'.log == n.log && AsksEveryone(n')
  {
    hide Campaign;
    hide AfterTicks;
    hide Announced;
    hide AsksEveryone;
    NoEarlyElection(n, jitters);
    var a := AfterTicks(n, jitters);
    CampaignAsksEveryone(a.(electionElapsed := 0));
  }

  /** A heartbeat that is due offers every other peer what it lacks, once untagged and once
      for every read round under way; one that is not due only counts. */
  lemma HeartbeatReachesAll(n: Node, jitter: nat)
    requires NodeOk(n) && n.role.Leader?
    ensures var n' := Tick(n, jitter);
      if n.heartbeatElapsed + 1 >= n.heartbeatTimeout then
        && n' == n.(heartbeatElapsed := 0, msgs := n'.msgs) && OffersAll(n', 0)
        && forall r :: r in n.rounds && n.rounds[r].started ==> OffersAll(n', r)
      else n' == n.(heartbeatElapsed := n.heartbeatElapsed + 1)
  {
    hide Appends;
    hide ReadAppends;
    if n.heartbeatElapsed + 1 >= n.heartbeatTimeout {
      var a, n' := Broadcast(n.(heartbeatElapsed := 0), 0), Tick(n, jitter);
      OfferedAll(n.(heartbeatElapsed := 0), n', 0);
      forall r | r in n.rounds && n.rounds[r].started ensures OffersAll(n', r) {
        assert r in Started(a);
        TaggedAppends(a, Started(a), r);
        OfferedAll(a, n', r);
      }
    }
  }

  lemma TaggedAppends(n: Node, ids: set<nat>, r: nat)
    requires r in ids
    ensures Appends(n, r) <= ReadAppends(n, ids)
  {}

  /** A local heartbeat offers every other peer what it lacks, and only at a leader. */
  lemma BeatReachesAll(n: Node)
    ensures var n' := Beat(n);
      if n.role.Leader? then n' == n.(msgs := n'.msgs) && OffersAll(n', 0) else n' == n
  {
    hide Appends;
    if n.role.Leader? { OfferedAll(n, Beat(n), 0); }
  }

  // ---------- reads ----------

  /** Round `r` is under way at the current commit index, confirmed by the leader alone,
      and every other peer has been asked; or it is answered, if the leader needs nobody. */
  ghost predicate UnderWay(n: Node, n': Node, r: nat) {
    if |n.prs| / 2 + 1 <= 1 then r !in n'.rounds && ReadState(r, n'.commit) in n'.readStates
    else r in n'.rounds && n'.rounds[r] == Round(n'.commit, true, {n.id}) && OffersAll(n', r)
  }

  lemma RoundsStart(n: Node, ids: set<nat>, r: nat)
    requires r in ids && ids <= Waiting(n)
    ensures UnderWay(n, StartRounds(n, ids), r)
  {
    hide Appends;
    hide ReadAppends;
    if |n.prs| / 2 + 1 <= 1 {
      assert ReadState(r, n.commit) in StartRounds(n, ids).readStates;
    } else {
      TaggedAppends(n, ids, r);
      OfferedAll(n, StartRounds(n, ids), r);
    }
  }

  lemma OthersStay(n: Node, ids: set<nat>, r: nat)
    requires r in n.rounds && r !in ids
    ensures r in StartRounds(n, ids).rounds && StartRounds(n, ids).rounds[r] == n.rounds[r]
  {}

  /** A read asked of a leader that has committed in its term is under way at once, at its
      commit index; before that it waits; elsewhere, and for a used id, nothing happens. */
  lemma ReadIsTaken(n: Node, id: nat)
    requires NodeOk(n)
    ensures var n' := ReadIndex(n, id);
      if !n.role.Leader? || id == 0 || id in n.rounds then n' == n
      else
        && n'.role.Leader? && n'.commit == n.commit && (forall r :: r in n.rounds ==> r in n'.rounds && n'.rounds[r] == n.rounds[r])
        && if 0 < n.commit < |n.log| && n.log[n.commit].term == n.term then UnderWay(n, n', id)
           else n' == n.(rounds := n.rounds[id := Round(0, false, {})])
  {
    hide StartRounds;
    hide LogOk;
    if n.role.Leader? && id != 0 && id !in n.rounds {
      var a := n.(rounds := n.rounds[id := Round(0, false, {})]);
      RoundsStart(a, {id}, id);
      StartRoundsFrame(a, {id});
      forall r | r in n.rounds ensures r in StartRounds(a, {id}).rounds && StartRounds(a, {id}).rounds[r] == n.rounds[r] {
        OthersStay(a, {id}, r);
      }
    }
  }

  lemma StartRoundsFrame(n: Node, ids: set<nat>)
    ensures var n' := StartRounds(n, ids);
      n' == n.(rounds := n'.rounds, readStates := n'.readStates, msgs := n'.msgs) && n.readStates <= n'.readStates
  {}

  lemma MaybeCommitWakes(n: Node, r: nat)
    requires NodeOk(n) && n.role.Leader? && r in n.rounds && !n.rounds[r].started && MaybeCommit(n).commit > n.commit
    ensures UnderWay(n, MaybeCommit(n), r)
  {
    hide StartRounds;
    hide LogOk;
    var a := MarkHard(n.(commit := QuorumMatch(n.prs)));
    hide QuorumMatch;
    RoundsStart(a, Waiting(a), r);
    StartRoundsFrame(a, Waiting(a));
  }

  lemma SameCount(n: Node, b: Node)
    requires b.prs.Keys == n.prs.Keys
    ensures |b.prs| == |n.prs|
  {
    assert |b.prs| == |b.prs.Keys| && |n.prs| == |n.prs.Keys|;
  }

  lemma AnswerWakes(n: Node, m: Message, r: nat)
    requires NodeOk(n) && n.role.Leader? && m.AppResp? && m.term <= n.term && r in n.rounds && !n.rounds[r].started
    requires Step(n, m).commit > n.commit
    ensures UnderWay(n, Step(n, m), r)
  {
    hide MaybeCommit;
    hide Adjusted;
    hide UnderWay;
    hide LogOk;
    var a := AckRound(n, m.readId, m.from);
    var b := a.(prs := a.prs[m.from := Adjusted(n.log, n.prs[m.from], m)]);
    assert b.prs.Keys == n.prs.Keys;
    SameCount(n, b);
    MaybeCommitWakes(b, r);
    StillUnderWay(n, b, Step(n, m), r);
  }

  lemma StillUnderWay(n: Node, b: Node, n': Node, r: nat)
    requires UnderWay(b, n', r) && |b.prs| == |n.prs| && b.id == n.id
    ensures UnderWay(n, n', r)
  {
    hide OffersAll;
  }

  lemma ProposalWakes(n: Node, data: Bytes, r: nat)
    requires NodeOk(n) && n.role.Leader? && r in n.rounds && !n.rounds[r].started && Propose(n, data).commit > n.commit
    ensures UnderWay(n, Propose(n, data), r)
  {
    hide MaybeCommit;
    hide UnderWay;
    hide LogOk;
    GrownLogOk(n.log, LogEntry(n.term, data));
    var b := Broadcast(Appended(n, data), 0);
    assert b.prs.Keys == n.prs.Keys;
    SameCount(n, b);
    MaybeCommitWakes(b, r);
    StillUnderWay(n, b, Propose(n, data), r);
  }

  /** Whatever call moves a leader's commit index, every read that was waiting is then
      under way at the new index. */
  lemma CommitWakesReads(n: Node, op: Op, r: nat)
    requires CallOk(n, op) && n.role.Leader? && r in n.rounds && !n.rounds[r].started
    requires var n' := Apply(n, op); n'.role.Leader? && n'.term == n.term && n'.commit > n.commit
    ensures UnderWay(n, Apply(n, op), r)
  {
    hide UnderWay;
    hide HandleAppendResp;
    hide HandleAppend;
    hide AppendEntry;
    hide StartRounds;
    hide LogOk;
    match op
    case Receive(m) => if m.AppResp? && m.term <= n.term { AnswerWakes(n, m, r); } else { StepKeepsCommit(n, m); }
    case TickOnce(jitter) =>
    case LocalHup =>
    case LocalBeat =>
    case ProposeData(data) => ProposalWakes(n, data, r);
    case StartRead(id) => StartRoundsFrame(n.(rounds := n.rounds[id := Round(0, false, {})]), {id});
    case DropRead(id) =>
  }

  lemma StepKeepsCommit(n: Node, m: Message)
    requires NodeOk(n) && n.role.Leader? && !(m.AppResp? && m.term <= n.term) && Step(n, m).role.Leader?
    ensures Step(n, m).commit == n.commit
  {
    hide HandleAppend;
    if m.term > n.term && m.App? {
      AppendDemotes(BecomeFollower(n, m.term, 0), m);
    }
  }

  /** The acknowledgement that completes a majority ends the round with its own index;
      any earlier one is added to it. */
  lemma QuorumthAckCompletes(n: Node, m: Message)
    requires NodeOk(n) && n.role.Leader? && 0 !in n.rounds
    requires m.AppResp? && m.term == n.term && m.from in n.prs && m.readId in n.rounds && n.rounds[m.readId].started
    ensures var n', r := Step(n, m), m.readId;
      var acks := n.rounds[r].acks + {m.from};
      if |acks| >= |n.prs| / 2 + 1 then r !in n'.rounds && ReadState(r, n.rounds[r].index) in n'.readStates
      else r in n'.rounds && n'.rounds[r] == Round(n.rounds[r].index, true, acks)
  {
    hide MaybeCommit;
    hide Adjusted;
    hide LogOk;
    var a := AckRound(n, m.readId, m.from);
    var b := a.(prs := a.prs[m.from := Adjusted(n.log, n.prs[m.from], m)]);
    assert b.prs.Keys == n.prs.Keys;
    StartedStays(b, m.readId);
  }

  lemma StartedStays(n: Node, r: nat)
    requires NodeOk(n) && (r in n.rounds ==> n.rounds[r].started)
    ensures var n' := MaybeCommit(n);
      && n.readStates <= n'.readStates && (r in n'.rounds <==> r in n.rounds)
      && (r in n.rounds ==> n'.rounds[r] == n.rounds[r])
  {
    hide QuorumMatch;
    hide LogOk;
  }

  /** A dropped read leaves no round behind and touches no other. */
  lemma DroppedReadIsGone(n: Node, id: nat)
    ensures var n' := CancelRead(n, id);
      && id !in n'.rounds && n' == n.(rounds := n'.rounds)
      && forall r :: r != id ==> (r in n'.rounds <==> r in n.rounds) && (r in n.rounds ==> n'.rounds[r] == n.rounds[r])
  {}
}
