/** A cluster of nodes over an unreliable network: the set `net` only grows, so any
    message may be lost, repeated or reordered. */
module RaftCluster {
  import opened Bytes
  import opened RaftNode

  /** Calls into one node. */
  datatype Op =
    | Receive(m: Message)
    | TickOnce(jitter: nat)
    | LocalHup
    | LocalBeat
    | ProposeData(data: Bytes)
    | StartRead(id: nat)
    | DropRead(id: nat)

  ghost function Apply(n: Node, op: Op): Node
    requires NodeOk(n)
  {
    match op
    case Receive(m) => Step(n, m)
    case TickOnce(jitter) => Tick(n, jitter)
    case LocalHup => Hup(n)
    case LocalBeat => Beat(n)
    case ProposeData(data) => Propose(n, data)
    case StartRead(id) => ReadIndex(n, id)
    case DropRead(id) => CancelRead(n, id)
  }

  /** What was true when a read round started: the leader just after starting it, and
      the messages sent, node states passed through and hard states saved until then. */
  datatype Start = Start(node: Node, net: set<Message>, past: set<Node>, durable: map<nat, HardState>)

  /** `ready` holds the nodes whose Ready is saved and being sent. The last four fields
      are history: every node state so far, for each term the latest state of its
      leader, the read ids each node was asked for, and the starts of its read rounds. */
  datatype Cluster = Cluster(
    nodes: map<nat, Node>, durable: map<nat, HardState>, ready: set<nat>, net: set<Message>,
    past: set<Node>, tops: map<nat, Node>, used: map<nat, set<nat>>, starts: map<nat, map<nat, Start>>)

  datatype Action =
    | Do(i: nat, op: Op)
    | Persist(i: nat)
    | Send(i: nat, m: Message)
    | Done(i: nat)
    | Retry(i: nat)
    | Restart(i: nat, log: seq<LogEntry>)

  // ---------- environment ----------

  /** A granted vote of an earlier term reaching a candidate: `handleVoteResp` would
      count it, so the environment must not deliver it. */
  ghost predicate StaleVote(n: Node, m: Message) {
    m.VoteResp? && !m.reject && m.term < n.term && n.role.Candidate?
  }

  ghost predicate Possible(c: Cluster, a: Action) {
    && a.i in c.nodes && a.i in c.durable && a.i in c.used && a.i in c.starts && NodeOk(c.nodes[a.i])
    && match a
       case Do(i, op) =>
         && i !in c.ready
         && (op.Receive? ==> op.m in c.net && op.m.to == i)
         && (op.StartRead? ==> op.id !in c.used[i])
       case Persist(i) => i !in c.ready
       case Send(i, m) => i in c.ready && m in c.nodes[i].msgs
       case Done(i) => i in c.ready
       case Retry(i) => i in c.ready
       case Restart(i, log) => LogOk(log)
  }

  ghost predicate Enabled(c: Cluster, a: Action) {
    Possible(c, a) && (a.Do? && a.op.Receive? ==> !StaleVote(c.nodes[a.i], a.op.m))
  }

  // ---------- steps ----------

  ghost function IdsOf(rs: set<ReadState>): set<nat> { set x | x in rs :: x.id }

  /** The read rounds that started between two states of a node. */
  ghost function Begun(n: Node, n': Node): set<nat> {
    Started(n') + IdsOf(n'.readStates - n.readStates) - Started(n)
  }

  ghost function Changed(c: Cluster, i: nat, n': Node): Cluster
    requires i in c.nodes && i in c.starts
  {
    c.(nodes := c.nodes[i := n'],
       past := c.past + {n'},
       tops := if n'.role.Leader? then c.tops[n'.term := n'] else c.tops,
       starts := c.starts[i := c.starts[i] + map r | r in Begun(c.nodes[i], n') :: Start(n', c.net, c.past, c.durable)])
  }

  ghost function Next(c: Cluster, a: Action): Cluster
    requires Possible(c, a)
  {
    var n := c.nodes[a.i];
    match a
    case Do(i, op) =>
      var d := if op.StartRead? then c.(used := c.used[i := c.used[i] + {op.id}]) else c;
      Changed(d, i, Apply(n, op))
    case Persist(i) =>
      c.(durable := if n.pending.Some? then c.durable[i := n.pending.value] else c.durable, ready := c.ready + {i})
    case Send(i, m) => c.(net := c.net + {m})
    case Done(i) => Changed(c, i, Advance(n)).(ready := c.ready - {i})
    case Retry(i) => c.(ready := c.ready - {i})
    case Restart(i, log) =>
      Changed(c, i, Boot(i, n.prs.Keys, c.durable[i], log, n.electionTimeout, n.heartbeatTimeout)).(ready := c.ready - {i})
  }

  ghost predicate InitialNode(c: Cluster, i: nat, n: Node) {
    && n == Boot(i, c.nodes.Keys, HardState(0, 0, 0), [SENTINEL], n.electionTimeout, n.heartbeatTimeout)
    && i in c.durable && c.durable[i] == HardState(0, 0, 0)
    && i in c.used && c.used[i] == {} && i in c.starts && c.starts[i] == map[]
    && n in c.past
  }

  ghost predicate Initial(c: Cluster) {
    && c.nodes != map[] && 0 !in c.nodes && c.ready == {} && c.net == {} && c.tops == map[]
    && (forall i :: i in c.nodes ==> InitialNode(c, i, c.nodes[i]))
    && (forall i :: i in c.starts ==> i in c.nodes)
    && (forall a :: a in c.past ==> a.id in c.nodes && a == c.nodes[a.id])
  }

  // ---------- runs ----------

  ghost predicate Runs(c: Cluster, acts: seq<Action>)
    decreases |acts|
  {
    acts == [] || (Enabled(c, acts[0]) && Runs(Next(c, acts[0]), acts[1..]))
  }

  ghost function Final(c: Cluster, acts: seq<Action>): Cluster
    requires Runs(c, acts)
    decreases |acts|
  {
    if acts == [] then c else Final(Next(c, acts[0]), acts[1..])
  }
}
