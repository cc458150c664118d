/** `Raft` as an object whose handlers update its fields in place, proved to do what the
    functions of `RaftNode` say. Go iterates maps in any order, so outboxes and read
    results are compared as sets. */
module RaftServer {
  import opened Bytes
  import opened RaftNode

  // ---------- the sorted match table of maybeCommit ----------

  function CountAtLeast(s: seq<nat>, x: nat): nat {
    if s == [] then 0 else (if s[|s| - 1] >= x then 1 else 0) + CountAtLeast(s[..|s| - 1], x)
  }

  ghost predicate Descending(s: seq<nat>) { forall i, j :: 0 <= i < j < |s| ==> s[i] >= s[j] }

  lemma {:induction false} CountConcat(a: seq<nat>, b: seq<nat>, x: nat)
    ensures CountAtLeast(a + b, x) == CountAtLeast(a, x) + CountAtLeast(b, x)
  {
    if b == [] {
      assert a + b == a;
    } else {
      assert (a + b)[..|a + b| - 1] == a + b[..|b| - 1];
      CountConcat(a, b[..|b| - 1], x);
    }
  }

  lemma {:induction false} CountAll(s: seq<nat>, x: nat)
    requires forall i :: 0 <= i < |s| ==> s[i] >= x
    ensures CountAtLeast(s, x) == |s|
  {
    if s != [] { CountAll(s[..|s| - 1], x); }
  }

  lemma {:induction false} CountNone(s: seq<nat>, x: nat)
    requires forall i :: 0 <= i < |s| ==> s[i] < x
    ensures CountAtLeast(s, x) == 0
  {
    if s != [] { CountNone(s[..|s| - 1], x); }
  }

  lemma {:induction false} CountBound(s: seq<nat>, x: nat)
    ensures CountAtLeast(s, x) <= |s|
  {
    if s != [] { CountBound(s[..|s| - 1], x); }
  }

  lemma ManyReachKth(s: seq<nat>, k: nat)
    requires Descending(s) && k < |s|
    ensures CountAtLeast(s, s[k]) > k
  {
    hide CountAtLeast;
    assert s == s[..k + 1] + s[k + 1..];
    CountConcat(s[..k + 1], s[k + 1..], s[k]);
    CountAll(s[..k + 1], s[k]);
  }

  lemma FewExceedKth(s: seq<nat>, k: nat)
    requires Descending(s) && k < |s|
    ensures CountAtLeast(s, s[k] + 1) <= k
  {
    hide CountAtLeast;
    assert s == s[..k] + s[k..];
    CountConcat(s[..k], s[k..], s[k] + 1);
    CountNone(s[k..], s[k] + 1);
    CountBound(s[..k], s[k] + 1);
  }

  lemma CountInserted(s: seq<nat>, i: nat, x: nat, y: nat)
    requires i <= |s|
    ensures CountAtLeast(s[..i] + [x] + s[i..], y) == CountAtLeast(s, y) + (if x >= y then 1 else 0)
  {
    CountConcat(s[..i] + [x], s[i..], y);
    CountConcat(s[..i], [x], y);
    assert CountAtLeast([x], y) == if x >= y then 1 else 0;
    hide CountAtLeast;
    assert s == s[..i] + s[i..];
    CountConcat(s[..i], s[i..], y);
  }

  /** Insert into a descending sequence, counting the same. */
  method InsertDown(s: seq<nat>, x: nat) returns (r: seq<nat>)
    requires Descending(s)
    ensures Descending(r) && |r| == |s| + 1
    ensures forall y :: CountAtLeast(r, y) == CountAtLeast(s, y) + (if x >= y then 1 else 0)
  {
    hide CountAtLeast;
    var i := |s|;
    while 0 < i && s[i - 1] < x
      invariant 0 <= i <= |s| && forall j :: i <= j < |s| ==> s[j] < x
    {
      i := i - 1;
    }
    r := s[..i] + [x] + s[i..];
    forall y ensures CountAtLeast(r, y) == CountAtLeast(s, y) + (if x >= y then 1 else 0) { CountInserted(s, i, x, y); }
  }

  lemma ReachedGrows(prs: map<nat, Progress>, done: set<nat>, f: nat, y: nat)
    requires f in prs && f !in done && done <= prs.Keys
    ensures |Reached(prs, y) * (done + {f})| == |Reached(prs, y) * done| + (if prs[f].match_ >= y then 1 else 0)
  {
    if prs[f].match_ >= y {
      assert Reached(prs, y) * (done + {f}) == Reached(prs, y) * done + {f};
    } else {
      assert Reached(prs, y) * (done + {f}) == Reached(prs, y) * done;
    }
  }

  /** The match table sorted downwards: how many peers have reached each index. */
  method SortedMatches(prs: map<nat, Progress>) returns (s: seq<nat>)
    ensures Descending(s) && |s| == |prs|
    ensures forall y :: CountAtLeast(s, y) == |Reached(prs, y)|
  {
    s := [];
    var todo := prs.Keys;
    ghost var done: set<nat> := {};
    while todo != {}
      invariant done + todo == prs.Keys && done !! todo && Descending(s) && |s| == |done|
      invariant forall y :: CountAtLeast(s, y) == |Reached(prs, y) * done|
      decreases |todo|
    {
      var f :| f in todo;
      forall y ensures |Reached(prs, y) * (done + {f})| == |Reached(prs, y) * done| + (if prs[f].match_ >= y then 1 else 0) {
        ReachedGrows(prs, done, f, y);
      }
      s := InsertDown(s, prs[f].match_);
      todo := todo - {f};
      done := done + {f};
    }
    assert done == prs.Keys && |prs| == |prs.Keys|;
    forall y ensures CountAtLeast(s, y) == |Reached(prs, y)| { assert Reached(prs, y) * done == Reached(prs, y); }
  }

  lemma QuorumPosition(prs: map<nat, Progress>, s: seq<nat>)
    requires prs.Keys != {} && Descending(s) && |s| == |prs| && forall y :: CountAtLeast(s, y) == |Reached(prs, y)|
    ensures |prs| / 2 < |s| && s[|prs| / 2] == QuorumMatch(prs)
  {
    assert |prs| == |prs.Keys|;
    ManyReachKth(s, |prs| / 2);
    FewExceedKth(s, |prs| / 2);
    hide CountAtLeast;
    QuorumMatchIsUnique(prs, s[|prs| / 2], QuorumMatch(prs));
  }

  // ---------- loops over the log ----------

  /** `FindLastIndexOfTerm`. */
  method FindLastIndexOfTerm(log: seq<LogEntry>, term: nat) returns (r: Option<nat>)
    ensures r == FindLast(log, term, |log|)
  {
    var i := |log|;
    while 0 < i
      invariant 0 <= i <= |log| && FindLast(log, term, i) == FindLast(log, term, |log|)
    {
      if log[i - 1].term == term { return Some(i - 1); }
      i := i - 1;
    }
    return None;
  }

  /** The walk back to the first entry of a conflicting term. */
  method FirstOfRun(log: seq<LogEntry>, i: nat) returns (first: nat)
    requires i < |log|
    ensures first == RunStart(log, i)
  {
    first := i;
    while 0 < first && log[first - 1].term == log[i].term
      invariant first <= i && log[first].term == log[i].term && RunStart(log, first) == RunStart(log, i)
    {
      first := first - 1;
    }
  }

  // ---------- sending to the peers one by one ----------

  ghost function AppendsTo(n: Node, fs: set<nat>, readId: nat): set<Message>
    requires fs <= n.prs.Keys
  {
    set f | f in fs && f != n.id && 0 < n.prs[f].next :: AppFor(n, f, readId)
  }

  lemma NoAppends(n: Node, readId: nat)
    ensures n.msgs + AppendsTo(n, {}, readId) == n.msgs
  {}

  lemma SameAppend(n: Node, v: Node, f: nat, readId: nat)
    requires v == n.(msgs := v.msgs) && f in n.prs && 0 < n.prs[f].next
    ensures AppFor(v, f, readId) == AppFor(n, f, readId)
  {}

  lemma SentOneMore(n: Node, v: Node, fs: set<nat>, f: nat, readId: nat)
    requires fs <= n.prs.Keys && f in n.prs && v == n.(msgs := n.msgs + AppendsTo(n, fs, readId))
    ensures n.(msgs := n.msgs + AppendsTo(n, fs + {f}, readId))
              == v.(msgs := v.msgs + if f == n.id || n.prs[f].next == 0 then {} else {AppFor(v, f, readId)})
    ensures f == n.id ==> n.(msgs := n.msgs + AppendsTo(n, fs + {f}, readId)) == v
  {
    if f != n.id && 0 < n.prs[f].next { SameAppend(n, v, f, readId); }
    hide AppFor;
    var more := if f == n.id || n.prs[f].next == 0 then {} else {AppFor(n, f, readId)};
    assert AppendsTo(n, fs + {f}, readId) == AppendsTo(n, fs, readId) + more;
    assert n.msgs + (AppendsTo(n, fs, readId) + more) == v.msgs + more;
  }

  lemma AllAppends(n: Node, readId: nat)
    ensures AppendsTo(n, n.prs.Keys, readId) == Appends(n, readId)
  {
    hide AppFor;
  }

  lemma ReachedAll(prs: map<nat, Progress>, old_: map<nat, Progress>, next: nat)
    requires prs.Keys == old_.Keys && forall f :: f in prs ==> prs[f] == Progress(0, next)
    ensures prs == FreshProgress(old_, next)
  {}

  lemma OneMoreVote(votes: map<nat, bool>, done: set<nat>, f: nat)
    requires f in votes && f !in done
    ensures |Supporters(votes) * (done + {f})| == |Supporters(votes) * done| + (if votes[f] then 1 else 0)
    ensures |Opponents(votes) * (done + {f})| == |Opponents(votes) * done| + (if votes[f] then 0 else 1)
  {
    var s, o := Supporters(votes), Opponents(votes);
    if votes[f] {
      assert s * (done + {f}) == s * done + {f} && o * (done + {f}) == o * done;
    } else {
      assert s * (done + {f}) == s * done && o * (done + {f}) == o * done + {f};
    }
  }

  lemma AllVotes(votes: map<nat, bool>)
    ensures Supporters(votes) * votes.Keys == Supporters(votes) && Opponents(votes) * votes.Keys == Opponents(votes)
  {}

  /** The tally of `handleVoteResp`. */
  method CountVotes(votes: map<nat, bool>) returns (granted: nat, rejected: nat)
    ensures granted == |Supporters(votes)| && rejected == |Opponents(votes)|
  {
    hide Supporters;
    hide Opponents;
    granted, rejected := 0, 0;
    var todo := votes.Keys;
    ghost var done: set<nat> := {};
    while todo != {}
      invariant done + todo == votes.Keys && done !! todo
      invariant granted == |Supporters(votes) * done| && rejected == |Opponents(votes) * done|
      decreases |todo|
    {
      var f :| f in todo;
      OneMoreVote(votes, done, f);
      if votes[f] { granted := granted + 1; } else { rejected := rejected + 1; }
      todo, done := todo - {f}, done + {f};
    }
    assert done == votes.Keys;
    AllVotes(votes);
  }

  // ---------- the object ----------

  ghost function Elements<T>(s: seq<T>): set<T> { set x | x in s }

  class Raft {
    const id: nat
    const electionTimeout: nat
    const heartbeatTimeout: nat
    var role: Role
    var lead: nat
    var term: nat
    var vote: nat
    var commit: nat
    var entries: seq<LogEntry>
    var prs: map<nat, Progress>
    var votes: map<nat, bool>
    var rounds: map<nat, Round>
    var msgs: seq<Message>
    var readStates: seq<ReadState>
    var pending: Option<HardState>
    var electionElapsed: nat
    var heartbeatElapsed: nat

    ghost function View(): Node
      reads this
    {
      Node(id, role, lead, term, vote, commit, entries, prs, votes, rounds,
           Elements(msgs), Elements(readStates), pending,
           electionElapsed, heartbeatElapsed, electionTimeout, heartbeatTimeout)
    }

    /** `NewRaft`, with the hard state and entries the storage held. */
    constructor (self: nat, peers: set<nat>, hs: HardState, log: seq<LogEntry>, et: nat, ht: nat)
      ensures View() == Boot(self, peers, hs, log, et, ht)
    {
      id, electionTimeout, heartbeatTimeout := self, et, ht;
      role, lead, term, vote, commit, entries := Follower, 0, hs.term, hs.vote, hs.commit, log;
      prs := map f | f in peers :: Progress(0, 1);
      votes, rounds, msgs, readStates, pending := map[], map[], [], [], None;
      electionElapsed, heartbeatElapsed := 0, 0;
    }

    method SendMessage(m: Message)
      modifies this`msgs
      ensures View() == old(View()).(msgs := old(View()).msgs + {m})
    {
      msgs := msgs + [m];
    }

    method MarkHardStateChanged()
      modifies this`pending
      ensures View() == MarkHard(old(View()))
    {
      hide Elements;
      pending := Some(HardState(term, vote, commit));
    }

    method SetRole(r: Role, leader: nat)
      modifies this`role, this`lead
      ensures View() == old(View()).(role := r, lead := leader)
    {
      hide Elements;
      role, lead := r, leader;
    }

    method SetTerm(t: nat, v: nat)
      modifies this`term, this`vote, this`pending
      ensures View() == MarkHard(old(View()).(term := t, vote := v))
    {
      hide Elements;
      term, vote := t, v;
      MarkHardStateChanged();
    }

    /** Forget votes and read rounds and restart the election clock. */
    method ResetBallot(ballot: map<nat, bool>)
      modifies this`votes, this`rounds, this`electionElapsed
      ensures View() == old(View()).(votes := ballot, rounds := map[], electionElapsed := 0)
    {
      hide Elements;
      votes, rounds, electionElapsed := ballot, map[], 0;
    }

    method StepDown(t: nat, leader: nat)
      modifies this
      ensures View() == BecomeFollower(old(View()), t, leader)
    {
      hide Elements;
      SetRole(Follower, leader);
      if t > term { SetTerm(t, 0); }
      ResetBallot(map[]);
    }

    method StandForElection()
      modifies this
      ensures View() == BecomeCandidate(old(View()))
    {
      hide Elements;
      SetRole(Candidate, 0);
      SetTerm(term + 1, id);
      ResetBallot(map[id := true]);
    }

    method SendAppend(to: nat, readId: nat)
      requires to in prs
      modifies this`msgs
      ensures View() == old(View()).(msgs := old(View()).msgs
                + if prs[to].next == 0 then {} else {AppFor(old(View()), to, readId)})
    {
      hide Elements;
      var next := prs[to].next;
      if next == 0 {
        assert View().msgs == old(View()).msgs + {};
        return;
      }
      var prev := next - 1;
      var slice := if next < |entries| then entries[next..] else [];
      SendMessage(App(id, to, term, prev, if prev < |entries| then entries[prev].term else 0, slice, commit, readId));
    }

    method BroadcastAppend(readId: nat)
      modifies this`msgs
      ensures View() == Broadcast(old(View()), readId)
    {
      hide Elements;
      hide AppFor;
      ghost var n := View();
      var todo := prs.Keys;
      ghost var done: set<nat> := {};
      NoAppends(n, readId);
      while todo != {}
        invariant done + todo == n.prs.Keys && View() == n.(msgs := n.msgs + AppendsTo(n, done, readId))
        decreases |todo|
      {
        var f :| f in todo;
        SentOneMore(n, View(), done, f, readId);
        if f != id { SendAppend(f, readId); }
        todo, done := todo - {f}, done + {f};
      }
      assert done == n.prs.Keys;
      AllAppends(n, readId);
    }

    method AdvanceCommit()
      requires NodeOk(View())
      modifies this
      ensures View() == MaybeCommit(old(View()))
    {
      hide Elements;
      var matches := SortedMatches(prs);
      QuorumPosition(prs, matches);
      var quorum := |prs| / 2 + 1;
      var mci := matches[quorum - 1];
      if mci < |entries| && entries[mci].term == term {
        CommitUpTo(mci);
      }
    }

    method CommitUpTo(i: nat)
      modifies this
      ensures View() == CommitTo(old(View()), i)
    {
      hide Elements;
      if i > commit {
        commit := i;
        MarkHardStateChanged();
        StartPendingReadRounds();
      }
    }

    predicate CommittedEntryInCurrentTerm()
      reads this
      ensures CommittedEntryInCurrentTerm() == CommittedInTerm(View())
    {
      commit > 0 && (if commit < |entries| then entries[commit].term else 0) == term
    }

    method StartPendingReadRounds()
      modifies this
      ensures View() == StartPending(old(View()))
    {
      hide Elements;
      if role != Leader || !CommittedEntryInCurrentTerm() { return; }
      ghost var n := View();
      var todo := rounds.Keys;
      ghost var done: set<nat> := {};
      StartNone(n);
      while todo != {}
        invariant done <= Waiting(n) && View() == StartRounds(n, done)
        invariant todo <= n.rounds.Keys && done !! todo && forall r :: r in Waiting(n) ==> r in done || r in todo
        decreases |todo|
      {
        var r :| r in todo;
        RoundUntouched(n, done, r);
        StartReadRound(r);
        if !n.rounds[r].started {
          StartOneMore(n, done, r);
          done := done + {r};
        }
        todo := todo - {r};
      }
      assert done == Waiting(n);
    }

    method StartReadRound(r: nat)
      modifies this
      ensures View() == if r in old(View()).rounds && !old(View()).rounds[r].started && CommittedInTerm(old(View()))
                        then StartRounds(old(View()), {r}) else old(View())
    {
      hide Elements;
      if r !in rounds || rounds[r].started || !CommittedEntryInCurrentTerm() { return; }
      ghost var n := View();
      var round := Round(commit, true, {id});
      rounds := rounds[r := round];
      if |round.acks| >= |prs| / 2 + 1 {
        StartCompletes(n, r);
        CompleteReadRound(r);
        return;
      }
      StartBroadcasts(n, r);
      BroadcastAppend(r);
    }

    method CompleteReadRound(r: nat)
      modifies this
      ensures View() == if r in old(View()).rounds
                        then old(View()).(rounds := old(View()).rounds - {r},
                                          readStates := old(View()).readStates + {ReadState(r, old(View()).rounds[r].index)})
                        else old(View())
    {
      if r !in rounds { return; }
      readStates := readStates + [ReadState(r, rounds[r].index)];
      rounds := rounds - {r};
    }

    method AckReadRound(r: nat, from: nat)
      modifies this
      ensures View() == AckRound(old(View()), r, from)
    {
      hide Elements;
      if r == 0 || role != Leader { return; }
      if from !in prs { return; }
      if r !in rounds || !rounds[r].started { return; }
      ghost var n := View();
      rounds := rounds[r := rounds[r].(acks := rounds[r].acks + {from})];
      if |rounds[r].acks| >= |prs| / 2 + 1 {
        CompleteReadRound(r);
        assert View().rounds == n.rounds - {r};
      }
    }

    method StartReadIndex(r: nat) returns (ok: bool)
      modifies this
      ensures View() == ReadIndex(old(View()), r)
      ensures ok == (old(role) == Leader && r != 0 && r !in old(rounds))
    {
      hide Elements;
      if role != Leader || r == 0 { return false; }
      if r in rounds { return false; }
      rounds := rounds[r := Round(0, false, {})];
      StartReadRound(r);
      return true;
    }

    method CancelReadIndex(r: nat)
      modifies this`rounds
      ensures View() == CancelRead(old(View()), r)
    {
      hide Elements;
      rounds := rounds - {r};
    }

    method RetryReadRounds()
      modifies this`msgs
      ensures View() == old(View()).(msgs := old(View()).msgs + ReadAppends(old(View()), Started(old(View()))))
    {
      hide Elements;
      hide Broadcast;
      hide ReadAppends;
      ghost var n := View();
      var todo := rounds.Keys;
      ghost var done: set<nat> := {};
      RetryNone(n);
      while todo != {}
        invariant todo <= n.rounds.Keys && done <= Started(n) && forall r :: r in Started(n) ==> r in done || r in todo
        invariant View() == n.(msgs := n.msgs + ReadAppends(n, done))
        decreases |todo|
      {
        var r :| r in todo;
        if rounds[r].started {
          RetryOne(n, View(), done, r);
          BroadcastAppend(r);
          done := done + {r};
        }
        todo := todo - {r};
      }
      assert done == Started(n);
    }

    method AppendNewEntry(data: Bytes)
      requires NodeOk(View()) && 0 < term
      modifies this
      ensures View() == AppendEntry(old(View()), data)
    {
      hide Elements;
      var index := |entries|;
      GrownLogOk(entries, LogEntry(term, data));
      entries := entries + [LogEntry(term, data)];
      prs := prs[id := Progress(index, index + 1)];
      BroadcastAppend(0);
      AdvanceCommit();
    }

    /** Every peer starts over behind the leader's log. */
    method ResetProgress()
      modifies this`prs
      ensures prs == FreshProgress(old(prs), |entries|)
    {
      var next := |entries|;
      var todo := prs.Keys;
      while todo != {}
        invariant todo <= old(prs).Keys && prs.Keys == old(prs).Keys
        invariant forall f :: f in prs && f !in todo ==> prs[f] == Progress(0, next)
        decreases |todo|
      {
        var f :| f in todo;
        prs := prs[f := Progress(0, next)];
        todo := todo - {f};
      }
      ReachedAll(prs, old(prs), next);
    }

    method TakeLead()
      requires NodeOk(View()) && 0 < term
      modifies this
      ensures View() == BecomeLeader(old(View()))
    {
      hide Elements;
      hide AppendEntry;
      hide FreshProgress;
      SetRole(Leader, id);
      heartbeatElapsed := 0;
      ResetProgress();
      AppendNewEntry([]);
    }

    method StartCampaign()
      requires NodeOk(View())
      modifies this
      ensures View() == Campaign(old(View()))
    {
      hide Elements;
      StandForElection();
      if |prs| == 1 {
        TakeLead();
        return;
      }
      ghost var n := View();
      var last := |entries| - 1;
      var todo := prs.Keys;
      ghost var sent: set<Message> := {};
      while todo != {}
        invariant todo <= prs.Keys && View() == n.(msgs := n.msgs + sent)
        invariant forall f :: f in n.prs && f !in todo && f != id ==> Vote(n.id, f, n.term, last, TermAt(n.log, last)) in sent
        invariant sent <= VoteRequests(n)
        decreases |todo|
      {
        var f :| f in todo;
        if f != id {
          var m := Vote(id, f, term, last, entries[last].term);
          SendMessage(m);
          sent := sent + {m};
          assert View().msgs == n.msgs + sent;
        }
        todo := todo - {f};
      }
      assert sent == VoteRequests(n);
    }

    method AnswerVote(m: Message)
      requires m.Vote? && LogOk(entries)
      modifies this
      ensures View() == HandleVote(old(View()), m)
    {
      hide Elements;
      var last := |entries| - 1;
      var granted := true;
      if term > m.term {
        granted := false;
      } else if vote != 0 && vote != m.from {
        granted := false;
      } else if entries[last].term > m.logTerm {
        granted := false;
      } else if entries[last].term == m.logTerm && last > m.logIndex {
        granted := false;
      }
      if granted {
        vote := m.from;
        MarkHardStateChanged();
        electionElapsed := 0;
      }
      SendMessage(VoteResp(id, m.from, term, !granted));
    }

    method TakeVote(m: Message)
      requires m.VoteResp? && NodeOk(View()) && 0 < term
      modifies this
      ensures View() == HandleVoteResp(old(View()), m)
    {
      hide Elements;
      votes := votes[m.from := !m.reject];
      var granted, rejected := CountVotes(votes);
      var quorum := |prs| / 2 + 1;
      if granted >= quorum {
        TakeLead();
      } else if rejected >= quorum {
        StepDown(term, 0);
      }
    }

    method TakeAppend(m: Message)
      requires m.App? && LogOk(entries)
      modifies this
      ensures View() == HandleAppend(old(View()), m)
    {
      hide Elements;
      var replyTerm := term;
      if term > m.term {
        SendMessage(AppResp(id, m.from, replyTerm, true, 0, 0, m.readId));
        return;
      }
      StepDown(m.term, m.from);
      if m.logIndex >= |entries| {
        SendMessage(AppResp(id, m.from, replyTerm, true, |entries|, 0, m.readId));
        return;
      }
      if m.logTerm != entries[m.logIndex].term {
        var conflict := entries[m.logIndex].term;
        var first := FirstOfRun(entries, m.logIndex);
        entries := entries[..first];
        SendMessage(AppResp(id, m.from, replyTerm, true, first, conflict, m.readId));
        return;
      }
      if |m.entries| > 0 {
        entries := entries[..m.logIndex + 1] + m.entries;
      }
      var last := |entries| - 1;
      if m.commit > commit {
        CommitUpTo(if m.commit < last then m.commit else last);
      }
      SendMessage(AppResp(id, m.from, replyTerm, false, last, 0, m.readId));
    }

    method TakeAppendResp(m: Message)
      requires m.AppResp? && NodeOk(View())
      modifies this
      ensures View() == HandleAppendResp(old(View()), m)
    {
      hide Elements;
      if m.from !in prs || m.term != term { return; }
      ghost var n := View();
      AckReadRound(m.readId, m.from);
      var pr := prs[m.from];
      if !m.reject {
        pr := Progress(m.logIndex, if m.logIndex + 1 < |entries| then m.logIndex + 1 else |entries|);
      } else if m.logTerm == 0 {
        pr := pr.(next := if m.logIndex > 1 then m.logIndex else 1);
      } else {
        var found := FindLastIndexOfTerm(entries, m.logTerm);
        if found.Some? { pr := pr.(next := found.value + 1); } else { pr := pr.(next := m.logIndex); }
      }
      if pr.match_ >= pr.next { pr := pr.(match_ := if pr.next == 0 then TWO_64 - 1 else pr.next - 1); }
      assert pr == Adjusted(n.log, n.prs[m.from], m);
      prs := prs[m.from := pr];
      AdvanceCommit();
    }

    method StepMessage(m: Message)
      requires NodeOk(View())
      modifies this
      ensures View() == Step(old(View()), m)
    {
      hide Elements;
      if m.term > term { StepDown(m.term, 0); }
      match m
      case Vote(_, _, _, _, _) => if role != Leader { AnswerVote(m); }
      case VoteResp(_, _, _, _) => if role == Candidate { TakeVote(m); }
      case App(_, _, _, _, _, _, _, _) => if role != Leader { TakeAppend(m); }
      case AppResp(_, _, _, _, _, _, _) => if role == Leader { TakeAppendResp(m); }
    }

    method StepHup()
      requires NodeOk(View())
      modifies this
      ensures View() == Hup(old(View()))
    {
      hide Elements;
      if role != Leader { StartCampaign(); }
    }

    method StepBeat()
      modifies this`msgs
      ensures View() == Beat(old(View()))
    {
      hide Elements;
      if role == Leader { BroadcastAppend(0); }
    }

    method TickClock(jitter: nat)
      requires NodeOk(View())
      modifies this
      ensures View() == Tick(old(View()), jitter)
    {
      hide Elements;
      if role == Leader {
        heartbeatElapsed := heartbeatElapsed + 1;
        if heartbeatElapsed >= heartbeatTimeout {
          heartbeatElapsed := 0;
          BroadcastAppend(0);
          RetryReadRounds();
        }
      } else {
        electionElapsed := electionElapsed + 1;
        if electionElapsed >= electionTimeout + jitter {
          electionElapsed := 0;
          StartCampaign();
        }
      }
    }

    method ProposeEntry(data: Bytes) returns (ok: bool)
      requires NodeOk(View())
      modifies this
      ensures View() == Propose(old(View()), data) && ok == (old(role) == Leader)
    {
      hide Elements;
      if role != Leader { return false; }
      AppendNewEntry(data);
      return true;
    }

    method AdvanceReady()
      modifies this
      ensures View() == Advance(old(View()))
    {
      pending, msgs, readStates := None, [], [];
    }
  }

  // ---------- starting rounds one by one ----------

  lemma StartNone(n: Node)
    ensures StartRounds(n, {}) == n
  {
    assert (map r | r in n.rounds && r !in {} :: n.rounds[r]) == n.rounds;
    assert (map r | r in n.rounds :: if r in {} then Round(n.commit, true, {n.id}) else n.rounds[r]) == n.rounds;
    assert n.msgs + ReadAppends(n, {}) == n.msgs;
    assert n.readStates + (set r | r in {} :: ReadState(r, n.commit)) == n.readStates;
  }

  lemma StartCompletes(n: Node, r: nat)
    requires r in n.rounds && Quorum(n) <= 1
    ensures var a := n.(rounds := n.rounds[r := Round(n.commit, true, {n.id})]);
      StartRounds(n, {r}) == a.(rounds := a.rounds - {r}, readStates := a.readStates + {ReadState(r, n.commit)})
  {
    assert n.rounds[r := Round(n.commit, true, {n.id})] - {r} == map x | x in n.rounds && x !in {r} :: n.rounds[x];
    assert (set x | x in {r} :: ReadState(x, n.commit)) == {ReadState(r, n.commit)};
  }

  lemma StartBroadcasts(n: Node, r: nat)
    requires r in n.rounds && Quorum(n) > 1
    ensures StartRounds(n, {r}) == Broadcast(n.(rounds := n.rounds[r := Round(n.commit, true, {n.id})]), r)
  {
    var a := n.(rounds := n.rounds[r := Round(n.commit, true, {n.id})]);
    assert Appends(a, r) == ReadAppends(n, {r});
    assert a.rounds == map x | x in n.rounds :: if x in {r} then Round(n.commit, true, {n.id}) else n.rounds[x];
  }

  lemma RoundUntouched(n: Node, done: set<nat>, r: nat)
    requires r in n.rounds && r !in done
    ensures r in StartRounds(n, done).rounds && StartRounds(n, done).rounds[r] == n.rounds[r]
    ensures CommittedInTerm(StartRounds(n, done)) == CommittedInTerm(n)
  {}

  lemma StartOneMore(n: Node, done: set<nat>, r: nat)
    requires r in n.rounds && r !in done
    ensures StartRounds(StartRounds(n, done), {r}) == StartRounds(n, done + {r})
  {
    var a := StartRounds(n, done);
    if Quorum(n) <= 1 {
      StartCompletes(a, r);
      assert StartRounds(a, {r}).rounds == StartRounds(n, done + {r}).rounds;
      assert StartRounds(a, {r}).readStates == StartRounds(n, done + {r}).readStates;
    } else {
      StartBroadcasts(a, r);
      assert StartRounds(a, {r}).rounds == StartRounds(n, done + {r}).rounds;
      MoreAppends(n, a, done, r);
    }
  }

  lemma MoreAppends(n: Node, a: Node, done: set<nat>, r: nat)
    requires a == n.(rounds := a.rounds, msgs := n.msgs + ReadAppends(n, done))
    ensures a.msgs + ReadAppends(a, {r}) == n.msgs + ReadAppends(n, done + {r})
  {
    assert forall f :: f in n.prs && 0 < n.prs[f].next ==> AppFor(a, f, r) == AppFor(n, f, r);
    hide AppFor;
    assert ReadAppends(n, done + {r}) == ReadAppends(n, done) + ReadAppends(a, {r});
  }

  lemma RetryNone(n: Node)
    ensures n == n.(msgs := n.msgs + ReadAppends(n, {}))
  {
    assert ReadAppends(n, {}) == {};
    assert n.msgs + {} == n.msgs;
  }

  lemma RetryOne(n: Node, v: Node, done: set<nat>, r: nat)
    requires v == n.(msgs := n.msgs + ReadAppends(n, done))
    ensures Broadcast(v, r) == n.(msgs := n.msgs + ReadAppends(n, done + {r}))
  {
    assert forall f :: f in n.prs && 0 < n.prs[f].next ==> AppFor(v, f, r) == AppFor(n, f, r);
    hide AppFor;
    assert ReadAppends(n, done + {r}) == ReadAppends(n, done) + Appends(v, r);
  }
}
