/** One Raft node as a value: what every handler of `Raft` does to it. The class
    `RaftServer.Raft` carries the same fields and is proved to do the same thing. */
module RaftNode {
  import opened Bytes

  datatype LogEntry = LogEntry(term: nat, data: Bytes)

  /** `entries[0]` is a sentinel of term 0; an entry's index is its position. */
  const SENTINEL := LogEntry(0, [])

  predicate TermsOk(log: seq<LogEntry>) { forall i :: 0 <= i < |log| ==> 0 < log[i].term }

  predicate LogOk(log: seq<LogEntry>) { log != [] && log[0] == SENTINEL && TermsOk(log[1..]) }

  function TermAt(log: seq<LogEntry>, i: nat): nat { if i < |log| then log[i].term else 0 }

  lemma GrownLogOk(log: seq<LogEntry>, e: LogEntry)
    requires LogOk(log) && 0 < e.term
    ensures LogOk(log + [e])
  {
    assert (log + [e])[1..] == log[1..] + [e];
  }

  lemma EntryTerm(log: seq<LogEntry>, i: nat)
    requires LogOk(log) && 0 < i < |log|
    ensures 0 < log[i].term
  {
    assert log[i] == log[1..][i - 1];
  }

  /** `Slice(lo, LastIndex()+1)`. */
  function From(log: seq<LogEntry>, lo: nat): seq<LogEntry> { if lo < |log| then log[lo..] else [] }

  /** The last index below `n` holding an entry of `term`. */
  function FindLast(log: seq<LogEntry>, term: nat, n: nat): (r: Option<nat>)
    requires n <= |log|
    ensures r.Some? ==> r.value < n && log[r.value].term == term
  {
    if n == 0 then None else if log[n - 1].term == term then Some(n - 1) else FindLast(log, term, n - 1)
  }

  /** The first index of the run of entries with the same term that ends at `i`. */
  function RunStart(log: seq<LogEntry>, i: nat): (first: nat)
    requires i < |log|
    ensures first <= i && log[first].term == log[i].term
    ensures log[0].term != log[i].term ==> 0 < first
  {
    if 0 < i && log[i - 1].term == log[i].term then RunStart(log, i - 1) else i
  }

  datatype Role = Follower | Candidate | Leader
  datatype HardState = HardState(term: nat, vote: nat, commit: nat)
  datatype Progress = Progress(match_: nat, next: nat)
  datatype Round = Round(index: nat, started: bool, acks: set<nat>)
  datatype ReadState = ReadState(id: nat, index: nat)

  datatype Message =
    | Vote(from: nat, to: nat, term: nat, logIndex: nat, logTerm: nat)
    | VoteResp(from: nat, to: nat, term: nat, reject: bool)
    | App(from: nat, to: nat, term: nat, logIndex: nat, logTerm: nat, entries: seq<LogEntry>, commit: nat, readId: nat)
    | AppResp(from: nat, to: nat, term: nat, reject: bool, logIndex: nat, logTerm: nat, readId: nat)

  datatype Node = Node(
    id: nat, role: Role, lead: nat, term: nat, vote: nat, commit: nat, log: seq<LogEntry>,
    prs: map<nat, Progress>, votes: map<nat, bool>, rounds: map<nat, Round>,
    msgs: set<Message>, readStates: set<ReadState>, pending: Option<HardState>,
    electionElapsed: nat, heartbeatElapsed: nat, electionTimeout: nat, heartbeatTimeout: nat)

  predicate NodeOk(n: Node) {
    n.id in n.prs && n.id != 0 && LogOk(n.log) && (n.role.Follower? || 0 < n.term)
  }

  /** Appends carry real entries, and the sentinel's term with the sentinel's index. */
  predicate MessageOk(m: Message) { m.App? ==> TermsOk(m.entries) && (m.logIndex == 0 ==> m.logTerm == 0) }

  function Quorum(n: Node): nat { |n.prs| / 2 + 1 }

  function HardOf(n: Node): HardState { HardState(n.term, n.vote, n.commit) }

  function MarkHard(n: Node): Node { n.(pending := Some(HardOf(n))) }

  // ---------- roles ----------

  function BecomeFollower(n: Node, term: nat, lead: nat): Node {
    var a := n.(role := Follower, lead := lead, electionElapsed := 0, votes := map[], rounds := map[]);
    if term > n.term then MarkHard(a.(term := term, vote := 0)) else a
  }

  function BecomeCandidate(n: Node): Node {
    MarkHard(n.(role := Candidate, lead := 0, term := n.term + 1, vote := n.id,
                votes := map[n.id := true], rounds := map[], electionElapsed := 0))
  }

  ghost function BecomeLeader(n: Node): Node
    requires NodeOk(n) && 0 < n.term
  {
    var a := n.(role := Leader, lead := n.id, heartbeatElapsed := 0,
                prs := FreshProgress(n.prs, |n.log|));
    AppendEntry(a, [])
  }

  function FreshProgress(prs: map<nat, Progress>, next: nat): (r: map<nat, Progress>)
    ensures r.Keys == prs.Keys
  {
    map f | f in prs :: Progress(0, next)
  }

  ghost function AppendEntry(n: Node, data: Bytes): Node
    requires NodeOk(n) && 0 < n.term
  {
    var index := |n.log|;
    GrownLogOk(n.log, LogEntry(n.term, data));
    var a := n.(log := n.log + [LogEntry(n.term, data)], prs := n.prs[n.id := Progress(index, index + 1)]);
    MaybeCommit(Broadcast(a, 0))
  }

  ghost function Campaign(n: Node): Node
    requires NodeOk(n)
  {
    var a := BecomeCandidate(n);
    if |n.prs| == 1 then BecomeLeader(a) else a.(msgs := a.msgs + VoteRequests(a))
  }

  ghost function VoteRequests(n: Node): set<Message>
    requires LogOk(n.log)
  {
    set f | f in n.prs && f != n.id :: Vote(n.id, f, n.term, |n.log| - 1, TermAt(n.log, |n.log| - 1))
  }

  // ---------- voting ----------

  predicate CanVote(n: Node, m: Message)
    requires m.Vote? && LogOk(n.log)
  {
    var last := |n.log| - 1;
    && n.term <= m.term
    && (n.vote == 0 || n.vote == m.from)
    && TermAt(n.log, last) <= m.logTerm
    && (TermAt(n.log, last) == m.logTerm ==> last <= m.logIndex)
  }

  function HandleVote(n: Node, m: Message): Node
    requires m.Vote? && LogOk(n.log)
  {
    var granted := CanVote(n, m);
    var a := if granted then MarkHard(n.(vote := m.from, electionElapsed := 0)) else n;
    a.(msgs := a.msgs + {VoteResp(n.id, m.from, a.term, !granted)})
  }

  function Supporters(votes: map<nat, bool>): set<nat> { set f | f in votes && votes[f] }

  function Opponents(votes: map<nat, bool>): set<nat> { set f | f in votes && !votes[f] }

  ghost function HandleVoteResp(n: Node, m: Message): Node
    requires m.VoteResp? && NodeOk(n) && 0 < n.term
  {
    var a := n.(votes := n.votes[m.from := !m.reject]);
    if |Supporters(a.votes)| >= Quorum(n) then BecomeLeader(a)
    else if |Opponents(a.votes)| >= Quorum(n) then BecomeFollower(a, a.term, 0)
    else a
  }

  // ---------- replication ----------

  /** The append for peer `f`; none when it would need a snapshot. */
  function AppFor(n: Node, f: nat, readId: nat): Message
    requires f in n.prs && 0 < n.prs[f].next
  {
    var prev := n.prs[f].next - 1;
    App(n.id, f, n.term, prev, TermAt(n.log, prev), From(n.log, prev + 1), n.commit, readId)
  }

  ghost function Appends(n: Node, readId: nat): set<Message> {
    set f | f in n.prs && f != n.id && 0 < n.prs[f].next :: AppFor(n, f, readId)
  }

  ghost function Broadcast(n: Node, readId: nat): Node { n.(msgs := n.msgs + Appends(n, readId)) }

  /** What `handleAppend` does to the log when the previous entry matches. */
  function Accepted(log: seq<LogEntry>, m: Message): seq<LogEntry>
    requires m.App? && m.logIndex < |log|
  {
    if m.entries == [] then log else log[..m.logIndex + 1] + m.entries
  }

  ghost function HandleAppend(n: Node, m: Message): Node
    requires m.App? && LogOk(n.log)
  {
    if n.term > m.term then
      n.(msgs := n.msgs + {AppResp(n.id, m.from, n.term, true, 0, 0, m.readId)})
    else
      var a := BecomeFollower(n, m.term, m.from);
      if m.logIndex >= |n.log| then
        a.(msgs := a.msgs + {AppResp(n.id, m.from, n.term, true, |n.log|, 0, m.readId)})
      else if m.logTerm != n.log[m.logIndex].term then
        var first := RunStart(n.log, m.logIndex);
        a.(log := n.log[..first],
           msgs := a.msgs + {AppResp(n.id, m.from, n.term, true, first, n.log[m.logIndex].term, m.readId)})
      else
        var b := a.(log := Accepted(n.log, m));
        var last := |b.log| - 1;
        var d := if m.commit > b.commit then CommitTo(b, if m.commit < last then m.commit else last) else b;
        d.(msgs := d.msgs + {AppResp(n.id, m.from, n.term, false, last, 0, m.readId)})
  }

  /** The new progress of the peer that answered. */
  function Adjusted(log: seq<LogEntry>, pr: Progress, m: Message): Progress
    requires m.AppResp?
  {
    var p :=
      if !m.reject then Progress(m.logIndex, if m.logIndex < |log| then m.logIndex + 1 else |log|)
      else if m.logTerm == 0 then pr.(next := if m.logIndex > 1 then m.logIndex else 1)
      else match FindLast(log, m.logTerm, |log|)
        case Some(found) => pr.(next := found + 1)
        case None => pr.(next := m.logIndex);
    // Next - 1 is unsigned and wraps when Next is 0
    if p.match_ >= p.next then p.(match_ := if p.next == 0 then TWO_64 - 1 else p.next - 1) else p
  }

  ghost function HandleAppendResp(n: Node, m: Message): Node
    requires m.AppResp? && NodeOk(n)
  {
    if m.from !in n.prs || m.term != n.term then n
    else
      var a := AckRound(n, m.readId, m.from);
      MaybeCommit(a.(prs := a.prs[m.from := Adjusted(n.log, n.prs[m.from], m)]))
  }

  // ---------- commit ----------

  function Reached(prs: map<nat, Progress>, i: nat): set<nat> { set f | f in prs && i <= prs[f].match_ }

  /** `matches[quorum-1]` of the matches sorted downwards: the largest index a quorum has reached. */
  ghost predicate IsQuorumMatch(prs: map<nat, Progress>, i: nat) {
    |Reached(prs, i)| >= |prs| / 2 + 1 && |Reached(prs, i + 1)| < |prs| / 2 + 1
  }

  lemma {:induction false} ReachedShrinks(prs: map<nat, Progress>, i: nat, j: nat)
    requires i <= j
    ensures Reached(prs, j) <= Reached(prs, i) && |Reached(prs, j)| <= |Reached(prs, i)|
  {
    Subset(Reached(prs, j), Reached(prs, i));
  }

  lemma {:induction false} Subset(a: set<nat>, b: set<nat>)
    requires a <= b
    ensures |a| <= |b|
  {
    if a != {} {
      var x :| x in a;
      Subset(a - {x}, b - {x});
    }
  }

  lemma QuorumMatchIsUnique(prs: map<nat, Progress>, i: nat, j: nat)
    requires IsQuorumMatch(prs, i) && IsQuorumMatch(prs, j)
    ensures i == j
  {
    if i < j { ReachedShrinks(prs, i + 1, j); }
    if j < i { ReachedShrinks(prs, j + 1, i); }
  }

  lemma {:induction false} QuorumMatchBelow(prs: map<nat, Progress>, hi: nat) returns (i: nat)
    requires prs.Keys != {} && |Reached(prs, hi + 1)| < |prs| / 2 + 1
    ensures IsQuorumMatch(prs, i)
  {
    assert Reached(prs, 0) == prs.Keys && |prs| == |prs.Keys|;
    if |Reached(prs, hi)| >= |prs| / 2 + 1 {
      i := hi;
    } else {
      i := QuorumMatchBelow(prs, hi - 1);
    }
  }

  lemma {:induction false} Bounded(prs: map<nat, Progress>, fs: set<nat>) returns (hi: nat)
    requires fs <= prs.Keys
    ensures forall f :: f in fs ==> prs[f].match_ <= hi
  {
    if fs == {} {
      hi := 0;
    } else {
      var f :| f in fs;
      var rest := Bounded(prs, fs - {f});
      hi := if prs[f].match_ > rest then prs[f].match_ else rest;
    }
  }

  lemma QuorumMatchExists(prs: map<nat, Progress>)
    requires prs.Keys != {}
    ensures exists i :: IsQuorumMatch(prs, i)
  {
    var hi := Bounded(prs, prs.Keys);
    assert Reached(prs, hi + 1) == {};
    var i := QuorumMatchBelow(prs, hi);
  }

  ghost function QuorumMatch(prs: map<nat, Progress>): (i: nat)
    requires prs.Keys != {}
    ensures IsQuorumMatch(prs, i)
  {
    QuorumMatchExists(prs);
    var i: nat :| IsQuorumMatch(prs, i);
    i
  }

  ghost function MaybeCommit(n: Node): Node
    requires NodeOk(n)
  {
    var i := QuorumMatch(n.prs);
    if i < |n.log| && n.log[i].term == n.term then CommitTo(n, i) else n
  }

  ghost function CommitTo(n: Node, i: nat): Node {
    if i > n.commit then StartPending(MarkHard(n.(commit := i))) else n
  }

  // ---------- ReadIndex ----------

  predicate CommittedInTerm(n: Node) { n.commit > 0 && TermAt(n.log, n.commit) == n.term }

  function Waiting(n: Node): set<nat> { set r | r in n.rounds && !n.rounds[r].started }

  /** Start the given waiting rounds: with a quorum of one they are complete at once. */
  ghost function StartRounds(n: Node, ids: set<nat>): Node {
    if Quorum(n) <= 1 then
      n.(rounds := map r | r in n.rounds && r !in ids :: n.rounds[r],
         readStates := n.readStates + set r | r in ids :: ReadState(r, n.commit))
    else
      n.(rounds := map r | r in n.rounds :: if r in ids then Round(n.commit, true, {n.id}) else n.rounds[r],
         msgs := n.msgs + ReadAppends(n, ids))
  }

  ghost function ReadAppends(n: Node, ids: set<nat>): set<Message> {
    set r, f | r in ids && f in n.prs && f != n.id && 0 < n.prs[f].next :: AppFor(n, f, r)
  }

  ghost function StartPending(n: Node): Node {
    if n.role.Leader? && CommittedInTerm(n) then StartRounds(n, Waiting(n)) else n
  }

  ghost function ReadIndex(n: Node, id: nat): Node {
    if !n.role.Leader? || id == 0 || id in n.rounds then n
    else
      var a := n.(rounds := n.rounds[id := Round(0, false, {})]);
      if CommittedInTerm(a) then StartRounds(a, {id}) else a
  }

  function CancelRead(n: Node, id: nat): Node { n.(rounds := n.rounds - {id}) }

  function AckRound(n: Node, id: nat, f: nat): Node {
    if id == 0 || !n.role.Leader? || f !in n.prs || id !in n.rounds || !n.rounds[id].started then n
    else
      var round := n.rounds[id].(acks := n.rounds[id].acks + {f});
      if |round.acks| >= Quorum(n) then
        n.(rounds := n.rounds - {id}, readStates := n.readStates + {ReadState(id, round.index)})
      else n.(rounds := n.rounds[id := round])
  }

  function Started(n: Node): set<nat> { set r | r in n.rounds && n.rounds[r].started }

  // ---------- entry points ----------

  ghost function Step(n: Node, m: Message): Node
    requires NodeOk(n)
  {
    var a := if m.term > n.term then BecomeFollower(n, m.term, 0) else n;
    match m
    case Vote(_, _, _, _, _) => if a.role.Leader? then a else HandleVote(a, m)
    case VoteResp(_, _, _, _) => if a.role.Candidate? then HandleVoteResp(a, m) else a
    case App(_, _, _, _, _, _, _, _) => if a.role.Leader? then a else HandleAppend(a, m)
    case AppResp(_, _, _, _, _, _, _) => if a.role.Leader? then HandleAppendResp(a, m) else a
  }

  ghost function Hup(n: Node): Node
    requires NodeOk(n)
  {
    if n.role.Leader? then n else Campaign(n)
  }

  ghost function Beat(n: Node): Node { if n.role.Leader? then Broadcast(n, 0) else n }

  /** One clock tick; `jitter` is the random part of the election timeout. */
  ghost function Tick(n: Node, jitter: nat): Node
    requires NodeOk(n)
  {
    if n.role.Leader? then
      if n.heartbeatElapsed + 1 >= n.heartbeatTimeout then
        var a := Broadcast(n.(heartbeatElapsed := 0), 0);
        a.(msgs := a.msgs + ReadAppends(a, Started(a)))
      else n.(heartbeatElapsed := n.heartbeatElapsed + 1)
    else if n.electionElapsed + 1 >= n.electionTimeout + jitter then Campaign(n.(electionElapsed := 0))
    else n.(electionElapsed := n.electionElapsed + 1)
  }

  ghost function Propose(n: Node, data: Bytes): Node
    requires NodeOk(n)
  {
    if n.role.Leader? then AppendEntry(n, data) else n
  }

  function Advance(n: Node): Node { n.(msgs := {}, readStates := {}, pending := None) }

  /** `NewRaft`, then `RestoreState` with what the storage held. */
  function Boot(id: nat, peers: set<nat>, hs: HardState, log: seq<LogEntry>, et: nat, ht: nat): Node {
    Node(id, Follower, 0, hs.term, hs.vote, hs.commit, log, map f | f in peers :: Progress(0, 1), map[], map[],
         {}, {}, None, 0, 0, et, ht)
  }
}
