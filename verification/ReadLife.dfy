/** Conservation of reads and no lost wakeup, over every interleaving of the raft worker
    and the apply worker. */
module ReadLife {
  import opened Bytes
  import opened ReadTracking

  // ---------- every read is in one place ----------

  function IdsOf(q: map<nat, nat>, r: nat): set<nat> { set id | id in q && q[id] == r }

  function Queued(ws: seq<Waiting>, r: nat): nat {
    if ws == [] then 0 else Queued(ws[..|ws| - 1], r) + if ws[|ws| - 1].request == r then 1 else 0
  }

  /** How often the read occurs: waiting for a quorum, waiting for apply, or finished. */
  function Places(t: Tracker, r: nat): nat { |IdsOf(t.quorum, r)| + Queued(t.apply, r) + t.calls[r] }

  ghost predicate Accounted(t: Tracker, started: set<nat>) {
    forall r :: Places(t, r) == if r in started then 1 else 0
  }

  lemma RemovedId(q: map<nat, nat>, id: nat, r: nat)
    requires id in q
    ensures |IdsOf(q - {id}, r)| == |IdsOf(q, r)| - if q[id] == r then 1 else 0
  {
    if q[id] == r {
      assert IdsOf(q, r) == IdsOf(q - {id}, r) + {id};
    } else {
      assert IdsOf(q, r) == IdsOf(q - {id}, r);
    }
  }

  lemma AddedId(q: map<nat, nat>, id: nat, x: nat, r: nat)
    requires id !in q
    ensures |IdsOf(q[id := x], r)| == |IdsOf(q, r)| + if x == r then 1 else 0
  {
    if x == r {
      assert IdsOf(q[id := x], r) == IdsOf(q, r) + {id};
    } else {
      assert IdsOf(q[id := x], r) == IdsOf(q, r);
    }
  }

  lemma QueuedMore(ws: seq<Waiting>, w: Waiting, r: nat)
    ensures Queued(ws + [w], r) == Queued(ws, r) + if w.request == r then 1 else 0
  {
    assert (ws + [w])[..|ws|] == ws;
  }

  lemma RejectConserves(t: Tracker, id: nat, o: Outcome, r: nat)
    ensures Places(Reject(t, id, o), r) == Places(t, r)
  {
    if id in t.quorum { RemovedId(t.quorum, id, r); }
  }

  lemma HandleStateConserves(t: Tracker, s: Confirmed, applied: nat, canceled: set<nat>, r: nat)
    ensures Places(HandleState(t, s, applied, canceled), r) == Places(t, r)
  {
    if s.id in t.quorum {
      RemovedId(t.quorum, s.id, r);
      QueuedMore(t.apply, Waiting(s.index, t.quorum[s.id]), r);
    }
  }

  lemma SweepOneConserves(t: Tracker, w: Waiting, limit: int, canceled: set<nat>, r: nat)
    ensures Places(SweepOne(t, w, limit, canceled), r) == Places(t, r) + if w.request == r then 1 else 0
  {
    QueuedMore(t.apply, w, r);
  }

  lemma {:induction false} SweepConserves(t: Tracker, ws: seq<Waiting>, limit: int, canceled: set<nat>, r: nat)
    ensures Places(Sweep(t, ws, limit, canceled), r) == Places(t, r) + Queued(ws, r)
    decreases |ws|
  {
    hide Places;
    hide SweepOne;
    if ws != [] {
      var n := |ws| - 1;
      SweepConserves(t, ws[..n], limit, canceled, r);
      SweepOneConserves(Sweep(t, ws[..n], limit, canceled), ws[n], limit, canceled, r);
    }
  }

  lemma NotifyConserves(t: Tracker, applied: nat, canceled: set<nat>, r: nat)
    ensures Places(NotifyApplied(t, applied, canceled), r) == Places(t, r)
  {
    hide Sweep;
    SweepConserves(t.(apply := []), t.apply, applied, canceled, r);
  }

  lemma {:induction false} FailConserves(t: Tracker, ids: set<nat>, canceled: set<nat>, r: nat)
    requires ids <= t.quorum.Keys
    ensures Places(Fail(t, ids, canceled), r) == Places(t, r) && Fail(t, ids, canceled).apply == t.apply
    decreases |ids|
  {
    if ids != {} {
      var id :| id in ids;
      var rest := ids - {id};
      FailConserves(t, rest, canceled, r);
      assert rest + {id} == ids;
      FailOneMore(t, rest, id, canceled);
      StillThere(t, rest, id, canceled);
      hide Fail;
      RemovedId(Fail(t, rest, canceled).quorum, id, r);
    }
  }

  lemma PruneConserves(t: Tracker, canceled: set<nat>, r: nat)
    ensures Places(PruneCanceled(t, canceled), r) == Places(t, r)
  {
    hide Sweep;
    hide Fail;
    var a := Fail(t, CanceledIds(t.quorum, canceled), canceled);
    FailConserves(t, CanceledIds(t.quorum, canceled), canceled, r);
    SweepConserves(a.(apply := []), a.apply, -1, canceled, r);
  }

  /** Starting a read keeps every other read accounted for exactly when the id it gets is
      not still in use: after 2^64 - 1 starts ids come round again. */
  lemma StartAccounts(t: Tracker, started: set<nat>, r: nat)
    requires Accounted(t, started) && r !in started
    ensures Accounted(Start(t, r), started + {r}) <==> Bump(t.nextId) !in t.quorum
  {
    var id := Bump(t.nextId);
    if id !in t.quorum {
      forall x ensures Places(Start(t, r), x) == if x in started + {r} then 1 else 0 {
        AddedId(t.quorum, id, r, x);
        assert Places(t, x) == if x in started then 1 else 0;
      }
    } else {
      var lost := t.quorum[id];
      assert id in IdsOf(t.quorum, lost);
      assert Places(t, lost) == 1 && lost in started;
      assert IdsOf(t.quorum, lost) == {id} by { OnlyOne(IdsOf(t.quorum, lost), id); }
      forall i ensures i !in IdsOf(Start(t, r).quorum, lost) {
        assert i in IdsOf(Start(t, r).quorum, lost) && i != id ==> i in IdsOf(t.quorum, lost);
      }
      assert IdsOf(Start(t, r).quorum, lost) == {};
      assert Places(Start(t, r), lost) == 0;
    }
  }

  lemma OnlyOne(s: set<nat>, x: nat)
    requires x in s && |s| <= 1
    ensures s == {x}
  {
    assert |s - {x}| == |s| - 1;
  }

  // ---------- the two workers ----------

  /** The apply worker is idle, or has a task whose remaining indexes it still stores
      before it calls `notifyApplied`. */
  datatype Worker = Idle | Applying(left: seq<nat>)

  /** The raft worker holds the tracker's lock inside `handleStates`, with the applied index
      it loaded and the states it has still to handle. */
  datatype Handler = Free | Holding(states: seq<Confirmed>, loaded: nat)

  datatype Sys = Sys(t: Tracker, applied: nat, canceled: set<nat>, worker: Worker, handler: Handler, started: set<nat>)

  datatype Action =
    | Begin(r: nat)
    | Refuse(id: nat)
    | Lock(states: seq<Confirmed>)
    | HandleOne
    | Unlock
    | FailReads(seen: set<nat>)
    | PruneReads(seen: set<nat>)
    | Cancel(r: nat)
    | TakeTask(indexes: seq<nat>)
    | Store
    | Notify(seen: set<nat>)

  ghost predicate Ascending(s: seq<nat>, lo: nat) {
    (forall i :: 0 <= i < |s| ==> lo <= s[i]) && (forall i, j :: 0 <= i < j < |s| ==> s[i] <= s[j])
  }

  /** Entries are applied in index order, and ids have not come round. A loop over many
      requests tests each of them once, while others may be canceled: `seen` are those it
      found canceled. */
  ghost predicate Enabled(s: Sys, a: Action) {
    match a
    case Begin(r) => s.handler.Free? && r !in s.started && s.t.nextId < TWO_64 - 1
    case Refuse(_) => s.handler.Free?
    case Lock(_) => s.handler.Free?
    case HandleOne => s.handler.Holding? && s.handler.states != []
    case Unlock => s.handler.Holding? && s.handler.states == []
    case FailReads(seen) => s.handler.Free? && seen <= s.canceled
    case PruneReads(seen) => s.handler.Free? && seen <= s.canceled
    case Cancel(_) => true
    case TakeTask(indexes) => s.worker.Idle? && Ascending(indexes, s.applied)
    case Store => s.worker.Applying? && s.worker.left != []
    case Notify(seen) => s.worker == Applying([]) && s.handler.Free? && seen <= s.canceled
  }

  ghost function Next(s: Sys, a: Action): Sys
    requires Enabled(s, a)
  {
    match a
    case Begin(r) => s.(t := Start(s.t, r), started := s.started + {r})
    case Refuse(id) => s.(t := Reject(s.t, id, NotLeader))
    case Lock(states) => s.(handler := Holding(states, s.applied))
    case HandleOne =>
      s.(t := HandleState(s.t, s.handler.states[0], s.handler.loaded, s.canceled),
         handler := Holding(s.handler.states[1..], s.handler.loaded))
    case Unlock => s.(handler := Free)
    case FailReads(seen) => s.(t := FailIfNotLeader(s.t, seen))
    case PruneReads(seen) => s.(t := PruneCanceled(s.t, seen))
    case Cancel(r) => s.(canceled := s.canceled + {r})
    case TakeTask(indexes) => s.(worker := Applying(indexes))
    case Store => s.(applied := s.worker.left[0], worker := Applying(s.worker.left[1..]))
    case Notify(seen) => s.(t := NotifyApplied(s.t, s.applied, seen), worker := Idle)
  }

  /** Nobody waits for an index already reached. */
  ghost predicate NoneCovered(ws: seq<Waiting>, applied: nat) { forall w :: w in ws ==> applied < w.index }

  ghost predicate Covered(results: set<Finish>, applied: nat) {
    forall f :: f in results && f.outcome.Success? ==> f.index <= applied
  }

  ghost predicate SysInv(s: Sys) {
    && Accounted(s.t, s.started)
    && (forall id :: id in s.t.quorum ==> id <= s.t.nextId)
    && Covered(s.t.results, s.applied)
    && (s.handler.Holding? ==> s.handler.loaded <= s.applied)
    && (s.worker.Applying? ==> Ascending(s.worker.left, s.applied))
    && (s.worker.Idle? ==> NoneCovered(s.t.apply, s.applied) && (s.handler.Holding? ==> s.handler.loaded == s.applied))
  }

  // ---------- what the calls do to the queue and the results ----------

  lemma HandleStateFacts(t: Tracker, c: Confirmed, applied: nat, canceled: set<nat>, now: nat)
    requires applied <= now && Covered(t.results, now)
    ensures var t' := HandleState(t, c, applied, canceled);
      && Covered(t'.results, now) && t'.nextId == t.nextId && t'.quorum.Keys <= t.quorum.Keys
      && (applied == now && NoneCovered(t.apply, now) ==> NoneCovered(t'.apply, now))
  {}

  lemma {:induction false} SweepFacts(t: Tracker, ws: seq<Waiting>, limit: int, canceled: set<nat>, now: nat)
    requires limit <= now && Covered(t.results, now) && (forall w :: w in t.apply ==> limit < w.index)
    ensures var t' := Sweep(t, ws, limit, canceled);
      && Covered(t'.results, now) && t'.nextId == t.nextId && t'.quorum == t.quorum
      && (forall w :: w in t'.apply ==> limit < w.index && (w in t.apply || w in ws))
    decreases |ws|
  {
    if ws != [] { SweepFacts(t, ws[..|ws| - 1], limit, canceled, now); }
  }

  lemma {:induction false} FailFacts(t: Tracker, ids: set<nat>, canceled: set<nat>, now: nat)
    requires ids <= t.quorum.Keys && Covered(t.results, now)
    ensures var t' := Fail(t, ids, canceled);
      Covered(t'.results, now) && t'.nextId == t.nextId && t'.quorum.Keys <= t.quorum.Keys && t'.apply == t.apply
    decreases |ids|
  {
    if ids != {} {
      var id :| id in ids;
      var rest := ids - {id};
      FailFacts(t, rest, canceled, now);
      assert rest + {id} == ids;
      FailOneMore(t, rest, id, canceled);
      hide Fail;
    }
  }

  // ---------- runs ----------

  lemma StepAccounts(s: Sys, a: Action)
    requires SysInv(s) && Enabled(s, a)
    ensures Accounted(Next(s, a).t, Next(s, a).started)
  {
    var s' := Next(s, a);
    if a.Begin? {
      StartAccounts(s.t, s.started, a.r);
    } else {
      hide Places;
      hide Fail;
      hide Sweep;
      hide HandleState;
      forall r ensures Places(s'.t, r) == Places(s.t, r) {
        match a
        case Refuse(id) => RejectConserves(s.t, id, NotLeader, r);
        case HandleOne => HandleStateConserves(s.t, s.handler.states[0], s.handler.loaded, s.canceled, r);
        case Unlock =>
        case FailReads(seen) => FailConserves(s.t, s.t.quorum.Keys, seen, r);
        case PruneReads(seen) => PruneConserves(s.t, seen, r);
        case Notify(seen) => NotifyConserves(s.t, s.applied, seen, r);
        case Lock(_) =>
        case Cancel(_) =>
        case TakeTask(_) =>
        case Store =>
      }
    }
  }

  lemma StepKeepsInv(s: Sys, a: Action)
    requires SysInv(s) && Enabled(s, a)
    ensures SysInv(Next(s, a))
  {
    StepAccounts(s, a);
    hide Accounted;
    hide HandleState;
    hide Sweep;
    hide Fail;
    match a
    case Begin(r) =>
    case Refuse(id) =>
    case Lock(_) =>
    case HandleOne => HandleStateFacts(s.t, s.handler.states[0], s.handler.loaded, s.canceled, s.applied);
    case Unlock =>
    case FailReads(seen) => FailFacts(s.t, s.t.quorum.Keys, seen, s.applied);
    case PruneReads(seen) =>
      var ids := CanceledIds(s.t.quorum, seen);
      FailFacts(s.t, ids, seen, s.applied);
      var b := Fail(s.t, ids, seen);
      SweepFacts(b.(apply := []), b.apply, -1, seen, s.applied);
    case Cancel(_) =>
    case TakeTask(_) =>
    case Store =>
    case Notify(seen) => SweepFacts(s.t.(apply := []), s.t.apply, s.applied, seen, s.applied);
  }

  ghost predicate Runs(s: Sys, acts: seq<Action>)
    decreases |acts|
  {
    acts == [] || (Enabled(s, acts[0]) && Runs(Next(s, acts[0]), acts[1..]))
  }

  ghost function Final(s: Sys, acts: seq<Action>): Sys
    requires Runs(s, acts)
    decreases |acts|
  {
    if acts == [] then s else Final(Next(s, acts[0]), acts[1..])
  }

  lemma {:induction false} RunKeepsInv(s: Sys, acts: seq<Action>)
    requires SysInv(s) && Runs(s, acts)
    ensures SysInv(Final(s, acts))
    decreases |acts|
  {
    hide SysInv;
    hide Next;
    hide Enabled;
    if acts != [] {
      assert Enabled(s, acts[0]) && Runs(Next(s, acts[0]), acts[1..]);
      StepKeepsInv(s, acts[0]);
      RunKeepsInv(Next(s, acts[0]), acts[1..]);
    }
  }

  ghost predicate Initial(s: Sys) {
    s.t == Tracker(0, map[], [], multiset{}, {}) && s.worker.Idle? && s.handler.Free? && s.started == {}
  }

  lemma InitialInv(s: Sys)
    requires Initial(s)
    ensures SysInv(s)
  {
    forall r ensures Places(s.t, r) == 0 { assert IdsOf(s.t.quorum, r) == {}; }
  }

  /** In every reachable state each started read waits for a quorum, waits for apply or is
      finished, exactly one of them and once; a successful one is covered by what is
      applied; and a queued read that is already covered has a notification to come. */
  lemma ReadsAreTracked(s: Sys, acts: seq<Action>)
    requires Initial(s) && Runs(s, acts)
    ensures var e := Final(s, acts);
      && (forall r :: r in e.started <==> Places(e.t, r) == 1) && (forall r :: Places(e.t, r) <= 1)
      && (forall f :: f in e.t.results && f.outcome.Success? ==> f.index <= e.applied)
      && (forall w :: w in e.t.apply && w.index <= e.applied ==> e.worker.Applying?)
  {
    InitialInv(s);
    RunKeepsInv(s, acts);
    hide Places;
    hide Runs;
  }
}
