/** How reads end: a read succeeds only with an index confirmed for it, is canceled only if
    its client canceled it, and every call finishes exactly the reads it must. */
module ReadOutcomes {
  import opened ReadTracking
  import opened ReadLife

  // ---------- what each call finishes ----------

  /** A queued read ends in this sweep: found canceled, or at most `limit`. */
  predicate Ends(w: Waiting, limit: int, canceled: set<nat>) { w.request in canceled || w.index <= limit }

  function EndOf(w: Waiting, canceled: set<nat>): Finish {
    if w.request in canceled then Finish(w.request, Canceled, 0) else Finish(w.request, Success, w.index)
  }

  /** The reads that stay queued, in their order. */
  function Staying(ws: seq<Waiting>, limit: int, canceled: set<nat>): seq<Waiting> {
    if ws == [] then []
    else if Ends(ws[0], limit, canceled) then Staying(ws[1..], limit, canceled)
    else [ws[0]] + Staying(ws[1..], limit, canceled)
  }

  lemma {:induction false} StayingMore(ws: seq<Waiting>, w: Waiting, limit: int, canceled: set<nat>)
    ensures Staying(ws + [w], limit, canceled) == Staying(ws, limit, canceled) + if Ends(w, limit, canceled) then [] else [w]
  {
    if ws == [] {
      assert ws + [w] == [w] && [w][1..] == [];
    } else {
      assert (ws + [w])[1..] == ws[1..] + [w];
      StayingMore(ws[1..], w, limit, canceled);
    }
  }

  /** A sweep ends exactly the reads that are canceled or reached, each with its outcome,
      and keeps the others in order. */
  lemma {:induction false} SweepIs(t: Tracker, ws: seq<Waiting>, limit: int, canceled: set<nat>)
    ensures var t' := Sweep(t, ws, limit, canceled);
      && t'.apply == t.apply + Staying(ws, limit, canceled) && t'.quorum == t.quorum && t'.nextId == t.nextId
      && t'.results == t.results + (set w | w in ws && Ends(w, limit, canceled) :: EndOf(w, canceled))
    decreases |ws|
  {
    if ws != [] {
      var n := |ws| - 1;
      var w, a := ws[n], Sweep(t, ws[..n], limit, canceled);
      SweepIs(t, ws[..n], limit, canceled);
      StayingMore(ws[..n], w, limit, canceled);
      assert ws == ws[..n] + [w];
      EndedMore(ws[..n], w, limit, canceled);
    }
  }

  lemma EndedMore(ws: seq<Waiting>, w: Waiting, limit: int, canceled: set<nat>)
    ensures (set x | x in ws + [w] && Ends(x, limit, canceled) :: EndOf(x, canceled))
      == (set x | x in ws && Ends(x, limit, canceled) :: EndOf(x, canceled))
         + (if Ends(w, limit, canceled) then {EndOf(w, canceled)} else {})
  {
    hide EndOf;
    hide Ends;
    var a := set x | x in ws + [w] && Ends(x, limit, canceled) :: EndOf(x, canceled);
    var b := set x | x in ws && Ends(x, limit, canceled) :: EndOf(x, canceled);
    forall f | f in b ensures f in a {
      var x :| x in ws && Ends(x, limit, canceled) && f == EndOf(x, canceled);
      assert x in ws + [w];
    }
    if Ends(w, limit, canceled) { assert w in ws + [w]; }
  }

  /** A notification finishes exactly the queued reads at or below the applied index, and
      those found canceled; the rest stay in order. */
  lemma NotifyFinishesCovered(t: Tracker, applied: nat, canceled: set<nat>)
    ensures var t' := NotifyApplied(t, applied, canceled);
      && t'.apply == Staying(t.apply, applied, canceled) && t'.quorum == t.quorum
      && t'.results == t.results + (set w | w in t.apply && Ends(w, applied, canceled) :: EndOf(w, canceled))
  {
    hide Sweep;
    SweepIs(t.(apply := []), t.apply, applied, canceled);
  }

  lemma {:induction false} FailIs(t: Tracker, ids: set<nat>, canceled: set<nat>)
    requires ids <= t.quorum.Keys
    ensures var t' := Fail(t, ids, canceled);
      && t'.quorum == t.quorum - ids && t'.apply == t.apply && t'.nextId == t.nextId
      && t'.results == t.results + (set id | id in ids :: Hopeless(t.quorum[id], canceled))
    decreases |ids|
  {
    hide Hopeless;
    if ids == {} {
      FailNone(t, canceled);
    } else {
      var id :| id in ids;
      var rest := ids - {id};
      FailIs(t, rest, canceled);
      assert rest + {id} == ids;
      FailOneMore(t, rest, id, canceled);
      hide Fail;
      assert t.quorum - rest - {id} == t.quorum - ids;
      assert (set x | x in ids :: Hopeless(t.quorum[x], canceled))
        == (set x | x in rest :: Hopeless(t.quorum[x], canceled)) + {Hopeless(t.quorum[id], canceled)};
    }
  }

  /** When the node is not leader, every read waiting for a quorum ends, as canceled or with
      "not leader"; queued reads are not touched. */
  lemma NonLeaderFailsAllWaiting(t: Tracker, canceled: set<nat>)
    ensures var t' := FailIfNotLeader(t, canceled);
      && t'.quorum == map[] && t'.apply == t.apply
      && t'.results == t.results + (set id | id in t.quorum ::
           Finish(t.quorum[id], if t.quorum[id] in canceled then Canceled else NotLeader, 0))
  {
    hide Fail;
    FailIs(t, t.quorum.Keys, canceled);
    assert t.quorum - t.quorum.Keys == map[];
    assert (set id | id in t.quorum.Keys :: Hopeless(t.quorum[id], canceled))
      == set id | id in t.quorum :: Finish(t.quorum[id], if t.quorum[id] in canceled then Canceled else NotLeader, 0);
  }

  /** Pruning ends exactly the canceled reads, in either stage, as canceled. */
  lemma PruneEndsCanceled(t: Tracker, canceled: set<nat>)
    ensures var t' := PruneCanceled(t, canceled);
      && t'.quorum == (map id | id in t.quorum && t.quorum[id] !in canceled :: t.quorum[id])
      && t'.apply == Staying(t.apply, -1, canceled)
      && (forall f :: f in t'.results && f !in t.results ==> f.outcome.Canceled? && f.request in canceled)
      && (forall id :: id in t.quorum && t.quorum[id] in canceled ==> Finish(t.quorum[id], Canceled, 0) in t'.results)
      && (forall w :: w in t.apply && w.request in canceled ==> Finish(w.request, Canceled, 0) in t'.results)
  {
    hide Fail;
    hide Sweep;
    var ids := CanceledIds(t.quorum, canceled);
    var a := Fail(t, ids, canceled);
    FailIs(t, ids, canceled);
    SweepIs(a.(apply := []), a.apply, -1, canceled);
    assert t.quorum - ids == map id | id in t.quorum && t.quorum[id] !in canceled :: t.quorum[id];
    forall id | id in t.quorum && t.quorum[id] in canceled ensures Finish(t.quorum[id], Canceled, 0) in a.results {
      assert id in ids && Hopeless(t.quorum[id], canceled) == Finish(t.quorum[id], Canceled, 0);
    }
    forall w | w in t.apply && w.request in canceled ensures Finish(w.request, Canceled, 0) in PruneCanceled(t, canceled).results {
      assert Ends(w, -1, canceled) && EndOf(w, canceled) == Finish(w.request, Canceled, 0);
    }
  }

  /** How the read `r` must stand after its index `i` was confirmed. */
  predicate Decided(t: Tracker, r: nat, i: nat, applied: nat, canceled: set<nat>) {
    if r in canceled then Finish(r, Canceled, 0) in t.results
    else if i <= applied then Finish(r, Success, i) in t.results
    else Waiting(i, r) in t.apply
  }

  lemma {:induction false} ConfirmedReadsLeave(t: Tracker, states: seq<Confirmed>, applied: nat, canceled: set<nat>)
    ensures HandleStates(t, states, applied, canceled).quorum == t.quorum - set c | c in states :: c.id
    decreases |states|
  {
    if states == [] {
      assert t.quorum - (set c | c in states :: c.id) == t.quorum;
    } else {
      var n := |states| - 1;
      ConfirmedReadsLeave(t, states[..n], applied, canceled);
      assert states == states[..n] + [states[n]];
      assert (set c | c in states :: c.id) == (set c | c in states[..n] :: c.id) + {states[n].id};
      var a := HandleStates(t, states[..n], applied, canceled);
      assert t.quorum - (set c | c in states :: c.id) == a.quorum - {states[n].id};
      hide HandleStates;
      HandledLeaves(a, states[n], applied, canceled);
    }
  }

  lemma HandledLeaves(t: Tracker, c: Confirmed, applied: nat, canceled: set<nat>)
    ensures HandleState(t, c, applied, canceled).quorum == t.quorum - {c.id}
  {}

  /** Every confirmed read leaves the quorum stage, and the first state that names it decides:
      canceled reads end so, covered ones succeed with that index, the others queue for it. */
  lemma {:induction false} FirstConfirmationDecides(t: Tracker, states: seq<Confirmed>, k: nat, applied: nat, canceled: set<nat>)
    requires k < |states| && states[k].id in t.quorum && forall j :: 0 <= j < k ==> states[j].id != states[k].id
    ensures Decided(HandleStates(t, states, applied, canceled), t.quorum[states[k].id], states[k].index, applied, canceled)
    decreases |states|
  {
    var n, c := |states| - 1, states[k];
    var a := HandleStates(t, states[..n], applied, canceled);
    if k < n {
      FirstConfirmationDecides(t, states[..n], k, applied, canceled);
      hide HandleStates;
      StaysDecided(a, states[n], t.quorum[c.id], c.index, applied, canceled);
    } else {
      ConfirmedReadsLeave(t, states[..n], applied, canceled);
      assert c.id in a.quorum && a.quorum[c.id] == t.quorum[c.id];
    }
  }

  lemma StaysDecided(t: Tracker, c: Confirmed, r: nat, i: nat, applied: nat, canceled: set<nat>)
    requires Decided(t, r, i, applied, canceled)
    ensures Decided(HandleState(t, c, applied, canceled), r, i, applied, canceled)
  {}

  // ---------- runs ----------

  /** A system with its history: which read each id was given to, and what was confirmed. */
  datatype Traced = Traced(s: Sys, given: map<nat, nat>, confirmed: set<Confirmed>)

  ghost function NextTraced(t: Traced, a: Action): Traced
    requires Enabled(t.s, a)
  {
    Traced(Next(t.s, a),
           if a.Begin? then t.given[Next(t.s, a).t.nextId := a.r] else t.given,
           if a.Lock? then t.confirmed + (set c | c in a.states) else t.confirmed)
  }

  ghost function FinalTraced(t: Traced, acts: seq<Action>): Traced
    requires Runs(t.s, acts)
    decreases |acts|
  {
    if acts == [] then t else FinalTraced(NextTraced(t, acts[0]), acts[1..])
  }

  lemma {:induction false} TracedFollows(t: Traced, acts: seq<Action>)
    requires Runs(t.s, acts)
    ensures FinalTraced(t, acts).s == Final(t.s, acts)
    decreases |acts|
  {
    hide Next;
    hide Enabled;
    if acts != [] { TracedFollows(NextTraced(t, acts[0]), acts[1..]); }
  }

  /** Index `i` was confirmed for an id that was given to read `r`. */
  ghost predicate ConfirmedFor(t: Traced, r: nat, i: nat) {
    exists id :: id in t.given && t.given[id] == r && Confirmed(id, i) in t.confirmed
  }

  ghost predicate FinishOk(t: Traced, f: Finish) {
    && (f.outcome.Success? ==> ConfirmedFor(t, f.request, f.index))
    && (f.outcome.Canceled? ==> f.request in t.s.canceled)
  }

  ghost predicate OutcomeInv(t: Traced) {
    && (forall id :: id in t.given ==> id <= t.s.t.nextId)
    && (forall id :: id in t.s.t.quorum ==> id in t.given && t.given[id] == t.s.t.quorum[id])
    && (forall w :: w in t.s.t.apply ==> ConfirmedFor(t, w.request, w.index))
    && (forall f :: f in t.s.t.results ==> FinishOk(t, f))
    && (t.s.handler.Holding? ==> forall c :: c in t.s.handler.states ==> c in t.confirmed)
  }

  /** History only grows. */
  ghost predicate Extends(t: Traced, t': Traced) {
    && (forall id :: id in t.given ==> id in t'.given && t'.given[id] == t.given[id])
    && t.confirmed <= t'.confirmed && t.s.canceled <= t'.s.canceled
  }

  lemma StillConfirmed(t: Traced, t': Traced, r: nat, i: nat)
    requires Extends(t, t') && ConfirmedFor(t, r, i)
    ensures ConfirmedFor(t', r, i)
  {
    var id :| id in t.given && t.given[id] == r && Confirmed(id, i) in t.confirmed;
    assert id in t'.given && t'.given[id] == r && Confirmed(id, i) in t'.confirmed;
  }

  lemma OldStaysOk(t: Traced, t': Traced)
    requires OutcomeInv(t) && Extends(t, t')
    ensures forall w :: w in t.s.t.apply ==> ConfirmedFor(t', w.request, w.index)
    ensures forall f :: f in t.s.t.results ==> FinishOk(t', f)
  {
    forall w | w in t.s.t.apply ensures ConfirmedFor(t', w.request, w.index) { StillConfirmed(t, t', w.request, w.index); }
    forall f | f in t.s.t.results ensures FinishOk(t', f) {
      assert FinishOk(t, f);
      if f.outcome.Success? { StillConfirmed(t, t', f.request, f.index); }
    }
  }

  lemma StepExtends(t: Traced, a: Action)
    requires OutcomeInv(t) && Enabled(t.s, a)
    ensures Extends(t, NextTraced(t, a))
  {
    hide ConfirmedFor;
    hide FinishOk;
    hide Fail;
    hide Sweep;
    hide HandleState;
  }

  lemma HandleOneOk(t: Traced)
    requires OutcomeInv(t) && Enabled(t.s, HandleOne)
    ensures OutcomeInv(NextTraced(t, HandleOne))
  {
    var t' := NextTraced(t, HandleOne);
    OldStaysOk(t, t');
    var c := t.s.handler.states[0];
    if c.id in t.s.t.quorum {
      assert ConfirmedFor(t', t.s.t.quorum[c.id], c.index) by { assert t'.given[c.id] == t.s.t.quorum[c.id] && c in t'.confirmed; }
    }
    hide ConfirmedFor;
  }

  lemma SweepOk(t: Traced, u: Tracker, limit: int, seen: set<nat>)
    requires seen <= t.s.canceled && forall w :: w in u.apply ==> ConfirmedFor(t, w.request, w.index)
    requires forall f :: f in u.results ==> FinishOk(t, f)
    ensures var u' := Sweep(u.(apply := []), u.apply, limit, seen);
      && (forall w :: w in u'.apply ==> ConfirmedFor(t, w.request, w.index))
      && (forall f :: f in u'.results ==> FinishOk(t, f)) && u'.quorum == u.quorum && u'.nextId == u.nextId
  {
    hide ConfirmedFor;
    hide Sweep;
    SweepIs(u.(apply := []), u.apply, limit, seen);
    StayingWere(u.apply, limit, seen);
  }

  lemma {:induction false} StayingWere(ws: seq<Waiting>, limit: int, canceled: set<nat>)
    ensures forall w :: w in Staying(ws, limit, canceled) ==> w in ws
  {
    if ws != [] { StayingWere(ws[1..], limit, canceled); }
  }

  lemma FailOk(t: Traced, ids: set<nat>, seen: set<nat>)
    requires OutcomeInv(t) && seen <= t.s.canceled && ids <= t.s.t.quorum.Keys
    ensures var u := Fail(t.s.t, ids, seen);
      && (forall f :: f in u.results ==> FinishOk(t, f)) && u.apply == t.s.t.apply && u.nextId == t.s.t.nextId
      && forall id :: id in u.quorum ==> id in t.s.t.quorum && u.quorum[id] == t.s.t.quorum[id]
  {
    hide ConfirmedFor;
    hide Fail;
    FailIs(t.s.t, ids, seen);
  }

  lemma StepKeepsOutcomes(t: Traced, a: Action)
    requires OutcomeInv(t) && Enabled(t.s, a)
    ensures OutcomeInv(NextTraced(t, a))
  {
    var t' := NextTraced(t, a);
    StepExtends(t, a);
    OldStaysOk(t, t');
    hide ConfirmedFor;
    hide FinishOk;
    hide Fail;
    hide Sweep;
    hide HandleState;
    hide Extends;
    match a
    case Begin(r) =>
    case Refuse(id) => RefusedOk(t, id);
    case Lock(_) =>
    case HandleOne => HandleOneOk(t);
    case Unlock =>
    case FailReads(seen) => FailOk(t, t.s.t.quorum.Keys, seen); SameHistory(t, t');
    case PruneReads(seen) =>
      var ids := CanceledIds(t.s.t.quorum, seen);
      FailOk(t, ids, seen);
      SweepOk(t, Fail(t.s.t, ids, seen), -1, seen);
      SameHistory(t, t');
    case Cancel(_) =>
    case TakeTask(_) =>
    case Store =>
    case Notify(seen) => SweepOk(t, t.s.t, t.s.applied, seen); SameHistory(t, t');
  }

  lemma RefusedOk(t: Traced, id: nat)
    requires OutcomeInv(t) && Enabled(t.s, Refuse(id))
    ensures forall f :: f in NextTraced(t, Refuse(id)).s.t.results ==> FinishOk(NextTraced(t, Refuse(id)), f)
  {
    hide ConfirmedFor;
    SameHistory(t, NextTraced(t, Refuse(id)));
  }

  lemma SameHistory(t: Traced, t': Traced)
    requires t'.given == t.given && t'.confirmed == t.confirmed && t'.s.canceled == t.s.canceled
    ensures forall r, i :: ConfirmedFor(t', r, i) <==> ConfirmedFor(t, r, i)
    ensures forall f :: FinishOk(t', f) <==> FinishOk(t, f)
  {}

  lemma {:induction false} RunKeepsOutcomes(t: Traced, acts: seq<Action>)
    requires OutcomeInv(t) && Runs(t.s, acts)
    ensures OutcomeInv(FinalTraced(t, acts))
    decreases |acts|
  {
    hide OutcomeInv;
    hide Next;
    hide Enabled;
    if acts != [] {
      StepKeepsOutcomes(t, acts[0]);
      RunKeepsOutcomes(NextTraced(t, acts[0]), acts[1..]);
    }
  }

  /** In every reachable state, a read that succeeded did so with an index confirmed for the
      id it had been given, and a read that ended as canceled had been canceled. */
  lemma OutcomesAreEarned(s: Sys, acts: seq<Action>, f: Finish)
    requires Initial(s) && Runs(s, acts) && f in Final(s, acts).t.results
    ensures FinishOk(FinalTraced(Traced(s, map[], {}), acts), f)
  {
    hide Runs;
    hide Final;
    hide FinalTraced;
    hide FinishOk;
    var t := Traced(s, map[], {});
    RunKeepsOutcomes(t, acts);
    TracedFollows(t, acts);
  }
}
