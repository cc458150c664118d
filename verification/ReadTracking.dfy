/** The life of a linearizable read in `readTracker`: waiting for a quorum, waiting for
    apply, finished. `canceled` are the requests a loop finds canceled when it tests them,
    each once; the applied index is stored outside the lock. */
module ReadTracking {
  import opened Bytes

  datatype Outcome = Success | Canceled | NotLeader
  datatype Finish = Finish(request: nat, outcome: Outcome, index: nat)
  datatype Confirmed = Confirmed(id: nat, index: nat)
  datatype Waiting = Waiting(index: nat, request: nat)

  /** `calls` counts the calls of `finish` for each request, `results` is what they said. */
  datatype Tracker = Tracker(nextId: nat, quorum: map<nat, nat>, apply: seq<Waiting>, calls: multiset<nat>, results: set<Finish>)

  // ---------- the calls ----------

  /** Ids are 64 bits and skip zero. */
  function Bump(id: nat): nat {
    var next := (id + 1) % TWO_64;
    if next == 0 then 1 else next
  }

  function Start(t: Tracker, r: nat): Tracker {
    t.(nextId := Bump(t.nextId), quorum := t.quorum[Bump(t.nextId) := r])
  }

  function End(t: Tracker, f: Finish): Tracker {
    t.(calls := t.calls + multiset{f.request}, results := t.results + {f})
  }

  function Reject(t: Tracker, id: nat, o: Outcome): Tracker {
    if id in t.quorum then End(t.(quorum := t.quorum - {id}), Finish(t.quorum[id], o, 0)) else t
  }

  function HandleState(t: Tracker, s: Confirmed, applied: nat, canceled: set<nat>): Tracker {
    if s.id !in t.quorum then t
    else
      var r, a := t.quorum[s.id], t.(quorum := t.quorum - {s.id});
      if r in canceled then End(a, Finish(r, Canceled, 0))
      else if s.index <= applied then End(a, Finish(r, Success, s.index))
      else a.(apply := a.apply + [Waiting(s.index, r)])
  }

  function HandleStates(t: Tracker, states: seq<Confirmed>, applied: nat, canceled: set<nat>): Tracker
    decreases |states|
  {
    if states == [] then t
    else HandleState(HandleStates(t, states[..|states| - 1], applied, canceled), states[|states| - 1], applied, canceled)
  }

  /** One step of a sweep over the apply queue, which starts from an empty one: reads
      canceled or at most `limit` end, the others stay. */
  function SweepOne(t: Tracker, w: Waiting, limit: int, canceled: set<nat>): Tracker {
    if w.request in canceled then End(t, Finish(w.request, Canceled, 0))
    else if w.index <= limit then End(t, Finish(w.request, Success, w.index))
    else t.(apply := t.apply + [w])
  }

  function Sweep(t: Tracker, ws: seq<Waiting>, limit: int, canceled: set<nat>): Tracker
    decreases |ws|
  {
    if ws == [] then t
    else SweepOne(Sweep(t, ws[..|ws| - 1], limit, canceled), ws[|ws| - 1], limit, canceled)
  }

  function NotifyApplied(t: Tracker, applied: nat, canceled: set<nat>): Tracker {
    Sweep(t.(apply := []), t.apply, applied, canceled)
  }

  function Hopeless(r: nat, canceled: set<nat>): Finish { Finish(r, if r in canceled then Canceled else NotLeader, 0) }

  /** End the reads waiting under the given ids, in whatever order the map yields them. */
  ghost function Fail(t: Tracker, ids: set<nat>, canceled: set<nat>): Tracker
    requires ids <= t.quorum.Keys
  {
    if ids == {} then t
    else
      var id :| id in ids;
      var a := Fail(t, ids - {id}, canceled);
      End(a.(quorum := a.quorum - {id}), Hopeless(t.quorum[id], canceled))
  }

  lemma {:induction false} FailOneMore(t: Tracker, ids: set<nat>, x: nat, canceled: set<nat>)
    requires ids <= t.quorum.Keys && x in t.quorum && x !in ids
    ensures var a := Fail(t, ids, canceled);
      Fail(t, ids + {x}, canceled) == End(a.(quorum := a.quorum - {x}), Hopeless(t.quorum[x], canceled))
    decreases |ids|
  {
    hide Hopeless;
    var all := ids + {x};
    var id :| id in all && Fail(t, all, canceled)
        == End(Fail(t, all - {id}, canceled).(quorum := Fail(t, all - {id}, canceled).quorum - {id}), Hopeless(t.quorum[id], canceled));
    if id == x {
      assert all - {id} == ids;
    } else {
      FailOneMore(t, ids - {id}, x, canceled);
      FailOneMore(t, ids - {id}, id, canceled);
      assert all - {id} == ids - {id} + {x} && ids == ids - {id} + {id};
      hide Fail;
      EndsCommute(Fail(t, ids - {id}, canceled), x, id, Hopeless(t.quorum[x], canceled), Hopeless(t.quorum[id], canceled));
    }
  }

  lemma EndsCommute(t: Tracker, x: nat, y: nat, f: Finish, g: Finish)
    ensures var a := End(t.(quorum := t.quorum - {x}), f);
            var b := End(t.(quorum := t.quorum - {y}), g);
      End(a.(quorum := a.quorum - {y}), g) == End(b.(quorum := b.quorum - {x}), f)
  {
    assert t.quorum - {x} - {y} == t.quorum - {y} - {x};
    assert t.results + {f} + {g} == t.results + {g} + {f};
  }

  ghost function FailIfNotLeader(t: Tracker, canceled: set<nat>): Tracker { Fail(t, t.quorum.Keys, canceled) }

  function CanceledIds(q: map<nat, nat>, canceled: set<nat>): set<nat> { set id | id in q && q[id] in canceled }

  ghost function PruneCanceled(t: Tracker, canceled: set<nat>): Tracker {
    var a := Fail(t, CanceledIds(t.quorum, canceled), canceled);
    Sweep(a.(apply := []), a.apply, -1, canceled)
  }

  // ---------- the object ----------

  function Calls(log: seq<Finish>): multiset<nat> {
    if log == [] then multiset{} else Calls(log[..|log| - 1]) + multiset{log[|log| - 1].request}
  }

  ghost function Results(log: seq<Finish>): set<Finish> { set f | f in log }

  class ReadTracker {
    var nextId: nat
    var quorum: map<nat, nat>
    var apply: seq<Waiting>
    var log: seq<Finish>

    ghost function View(): Tracker
      reads this
    {
      Tracker(nextId, quorum, apply, Calls(log), Results(log))
    }

    constructor ()
      ensures View() == Tracker(0, map[], [], multiset{}, {})
    {
      nextId, quorum, apply, log := 0, map[], [], [];
    }

    method FinishRead(f: Finish)
      modifies this`log
      ensures View() == End(old(View()), f)
    {
      log := log + [f];
      assert log[..|log| - 1] == old(log);
    }

    method StartRead(r: nat) returns (id: nat)
      modifies this
      ensures View() == Start(old(View()), r) && id == nextId && id != 0
    {
      nextId := (nextId + 1) % TWO_64;
      if nextId == 0 { nextId := nextId + 1; }
      quorum := quorum[nextId := r];
      return nextId;
    }

    method RejectRead(id: nat, o: Outcome)
      modifies this
      ensures View() == Reject(old(View()), id, o)
    {
      if id in quorum {
        var r := quorum[id];
        quorum := quorum - {id};
        FinishRead(Finish(r, o, 0));
      }
    }

    method HandleReadStates(states: seq<Confirmed>, applied: nat, canceled: set<nat>)
      modifies this
      ensures View() == HandleStates(old(View()), states, applied, canceled)
    {
      for i := 0 to |states|
        invariant View() == HandleStates(old(View()), states[..i], applied, canceled)
      {
        assert states[..i + 1][..i] == states[..i];
        HandleReadState(states[i], applied, canceled);
      }
      assert states[..|states|] == states;
    }

    method HandleReadState(s: Confirmed, applied: nat, canceled: set<nat>)
      modifies this
      ensures View() == HandleState(old(View()), s, applied, canceled)
    {
      if s.id !in quorum { return; }
      var r := quorum[s.id];
      quorum := quorum - {s.id};
      if r in canceled {
        FinishRead(Finish(r, Canceled, 0));
      } else if s.index <= applied {
        FinishRead(Finish(r, Success, s.index));
      } else {
        apply := apply + [Waiting(s.index, r)];
      }
    }

    /** Refill the apply queue with what still waits. */
    method SweepQueue(limit: int, canceled: set<nat>)
      modifies this`apply, this`log
      ensures View() == Sweep(old(View()).(apply := []), old(apply), limit, canceled)
    {
      var ws := apply;
      ghost var t := View().(apply := []);
      apply := [];
      for i := 0 to |ws|
        invariant View() == Sweep(t, ws[..i], limit, canceled)
      {
        assert ws[..i + 1][..i] == ws[..i];
        var w := ws[i];
        if w.request in canceled {
          FinishRead(Finish(w.request, Canceled, 0));
        } else if w.index <= limit {
          FinishRead(Finish(w.request, Success, w.index));
        } else {
          apply := apply + [w];
        }
      }
      assert ws[..|ws|] == ws;
    }

    method Notify(applied: nat, canceled: set<nat>)
      modifies this
      ensures View() == NotifyApplied(old(View()), applied, canceled)
    {
      SweepQueue(applied, canceled);
    }

    method FailOne(id: nat, canceled: set<nat>)
      requires id in quorum
      modifies this`quorum, this`log
      ensures View() == End(old(View()).(quorum := old(quorum) - {id}), Hopeless(old(quorum)[id], canceled))
    {
      var r := quorum[id];
      quorum := quorum - {id};
      FinishRead(Finish(r, if r in canceled then Canceled else NotLeader, 0));
    }

    method FailAll(canceled: set<nat>) returns (ids: set<nat>)
      modifies this
      ensures View() == FailIfNotLeader(old(View()), canceled) && ids == old(quorum).Keys
    {
      hide Fail;
      ids := {};
      ghost var t := View();
      FailNone(t, canceled);
      var todo := quorum.Keys;
      while todo != {}
        invariant ids + todo == t.quorum.Keys && ids !! todo && View() == Fail(t, ids, canceled)
        decreases |todo|
      {
        var id :| id in todo;
        FailOneMore(t, ids, id, canceled);
        StillThere(t, ids, id, canceled);
        FailOne(id, canceled);
        todo, ids := todo - {id}, ids + {id};
      }
      assert ids == t.quorum.Keys;
    }

    method Prune(canceled: set<nat>) returns (ids: set<nat>)
      modifies this
      ensures View() == PruneCanceled(old(View()), canceled) && ids == CanceledIds(old(quorum), canceled)
    {
      hide Fail;
      hide Sweep;
      ids := {};
      ghost var t := View();
      FailNone(t, canceled);
      var todo := quorum.Keys;
      while todo != {}
        invariant todo <= t.quorum.Keys && ids !! todo && ids <= CanceledIds(t.quorum, canceled)
        invariant forall id :: id in CanceledIds(t.quorum, canceled) ==> id in ids || id in todo
        invariant View() == Fail(t, ids, canceled)
        decreases |todo|
      {
        var id :| id in todo;
        StillThere(t, ids, id, canceled);
        if quorum[id] in canceled {
          FailOneMore(t, ids, id, canceled);
          FailOne(id, canceled);
          ids := ids + {id};
        }
        todo := todo - {id};
      }
      assert ids == CanceledIds(t.quorum, canceled);
      SweepQueue(-1, canceled);
    }
  }

  lemma FailNone(t: Tracker, canceled: set<nat>)
    ensures Fail(t, {}, canceled) == t
  {}

  lemma {:induction false} StillThere(t: Tracker, ids: set<nat>, x: nat, canceled: set<nat>)
    requires ids <= t.quorum.Keys && x in t.quorum && x !in ids
    ensures x in Fail(t, ids, canceled).quorum && Fail(t, ids, canceled).quorum[x] == t.quorum[x]
    decreases |ids|
  {
    hide Hopeless;
    if ids == {} {
      FailNone(t, canceled);
    } else {
      var id :| id in ids;
      var rest := ids - {id};
      assert rest + {id} == ids;
      StillThere(t, rest, x, canceled);
      FailOneMore(t, rest, id, canceled);
    }
  }
}
