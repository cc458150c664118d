/** What the merged stream means to a reader at sequence `s`: the visible entries in
    all children, and those still ahead. Neither changes when newer entries are
    inserted. */
module IteratorViews {
  import opened Entries
  import opened Iterators

  ghost function Vis(c: Cursor, s: nat): set<Entry> { set e | e in c.entries && e.sn <= s }

  ghost function Ahead(c: Cursor, s: nat): set<Entry>
    requires c.pos <= |c.entries|
  {
    set e | e in c.entries[c.pos..] && e.sn <= s
  }

  ghost function AllVis(cs: seq<Cursor>, s: nat): set<Entry> {
    if cs == [] then {} else Vis(cs[0], s) + AllVis(cs[1..], s)
  }

  ghost function AllAhead(cs: seq<Cursor>, s: nat): set<Entry>
    requires CursorsOk(cs)
  {
    if cs == [] then {} else Ahead(cs[0], s) + AllAhead(cs[1..], s)
  }

  /** No visible entry is in two children. */
  ghost predicate Distinct(cs: seq<Cursor>, s: nat) {
    cs == [] || (Vis(cs[0], s) !! AllVis(cs[1..], s) && Distinct(cs[1..], s))
  }

  lemma {:induction false} FindAhead(cs: seq<Cursor>, s: nat, e: Entry) returns (i: nat)
    requires CursorsOk(cs) && e in AllAhead(cs, s)
    ensures i < |cs| && e in Ahead(cs[i], s)
  {
    if e in Ahead(cs[0], s) {
      i := 0;
    } else {
      var j := FindAhead(cs[1..], s, e);
      i := j + 1;
    }
  }

  lemma {:induction false} AheadOfChild(cs: seq<Cursor>, s: nat, i: nat)
    requires CursorsOk(cs) && i < |cs|
    ensures Ahead(cs[i], s) <= AllAhead(cs, s)
  {
    if 0 < i { AheadOfChild(cs[1..], s, i - 1); }
  }

  lemma {:induction false} AheadWithinVis(cs: seq<Cursor>, s: nat)
    requires CursorsOk(cs)
    ensures AllAhead(cs, s) <= AllVis(cs, s)
  {
    if cs != [] { AheadWithinVis(cs[1..], s); }
  }

  // ---------- interference ----------

  lemma GrewKeepsView(c: Cursor, c': Cursor, s: nat)
    requires CursorOk(c) && Grew(c, c', s)
    ensures Vis(c', s) == Vis(c, s) && Ahead(c', s) == Ahead(c, s)
  {
    BeforeIsStrictOrder();
    forall e | e in Vis(c, s) ensures e in Ahead(c, s) <==> e in Ahead(c', s) {
      var i :| 0 <= i < |c.entries| && c.entries[i] == e;
      var i' :| 0 <= i' < |c'.entries| && c'.entries[i'] == e;
      SameSide(c, e, i);
      SameSide(c', e, i');
    }
  }

  /** Whether an entry is ahead can be told from the entry alone. */
  lemma SameSide(c: Cursor, e: Entry, i: nat)
    requires CursorOk(c) && i < |c.entries| && c.entries[i] == e
    ensures e in c.entries[c.pos..] <==> HasEntry(c) && !Before(e, At(c))
  {
    BeforeIsStrictOrder();
    if c.pos <= i {
      assert c.entries[c.pos..][i - c.pos] == e;
      if c.pos < i { assert Before(At(c), e); }
    } else {
      assert forall j :: c.pos <= j < |c.entries| ==> Before(c.entries[i], c.entries[j]);
    }
  }

  lemma {:induction false} InterferenceKeepsViews(cs: seq<Cursor>, cs': seq<Cursor>, s: nat)
    requires CursorsOk(cs) && CursorsOk(cs') && |cs| == |cs'|
    requires forall i :: 0 <= i < |cs| ==> Grew(cs[i], cs'[i], s)
    ensures AllVis(cs', s) == AllVis(cs, s) && AllAhead(cs', s) == AllAhead(cs, s)
    ensures Distinct(cs', s) == Distinct(cs, s)
  {
    hide Grew;
    hide Vis;
    hide Ahead;
    if cs != [] {
      GrewKeepsView(cs[0], cs'[0], s);
      InterferenceKeepsViews(cs[1..], cs'[1..], s);
    }
  }

  // ---------- advancing ----------

  /** The top of the heap is not after anything still ahead. */
  lemma TopIsLeast(cs: seq<Cursor>, s: nat, t: nat, e: Entry)
    requires CursorsOk(cs) && t < |cs| && HasEntry(cs[t]) && e in AllAhead(cs, s)
    requires forall i :: 0 <= i < |cs| && HasEntry(cs[i]) ==> !Before(At(cs[i]), At(cs[t]))
    ensures !Before(e, At(cs[t]))
  {
    hide AllAhead;
    BeforeIsStrictOrder();
    BeforeIsTotal();
    var i := FindAhead(cs, s, e);
    var j :| 0 <= j < |cs[i].entries[cs[i].pos..]| && cs[i].entries[cs[i].pos..][j] == e;
    if 0 < j { assert Before(At(cs[i]), e); }
  }

  function Step(c: Cursor): Cursor { c.(pos := c.pos + 1) }

  lemma StepAhead(c: Cursor, s: nat)
    requires CursorOk(c) && HasEntry(c)
    ensures CursorOk(Step(c)) && Vis(Step(c), s) == Vis(c, s)
    ensures Ahead(Step(c), s) == Ahead(c, s) - {At(c)}
    ensures At(c).sn <= s ==> At(c) in Ahead(c, s)
  {
    BeforeIsStrictOrder();
    assert c.entries[c.pos..] == [At(c)] + c.entries[c.pos + 1..];
    assert forall j :: c.pos < j < |c.entries| ==> Before(At(c), c.entries[j]);
    assert At(c) !in c.entries[c.pos + 1..];
  }

  /** Advancing one child removes exactly its current entry from what is ahead. */
  lemma {:induction false} AdvanceViews(cs: seq<Cursor>, s: nat, t: nat)
    requires CursorsOk(cs) && Distinct(cs, s) && t < |cs| && HasEntry(cs[t])
    ensures var cs' := cs[t := Step(cs[t])];
      && CursorsOk(cs') && AllVis(cs', s) == AllVis(cs, s) && Distinct(cs', s)
      && AllAhead(cs', s) == AllAhead(cs, s) - {At(cs[t])}
  {
    hide Vis;
    hide Ahead;
    StepAhead(cs[t], s);
    var cs' := cs[t := Step(cs[t])];
    AheadIsVisible(cs[t], s);
    AheadIsVisible(cs[0], s);
    AllVisible(cs[1..], s);
    if t == 0 {
      assert cs'[1..] == cs[1..];
      AheadWithinVis(cs[1..], s);
      EntryIsVisible(cs[0], s);
    } else {
      assert cs'[1..] == cs[1..][t - 1 := Step(cs[1..][t - 1])];
      AdvanceViews(cs[1..], s, t - 1);
      VisOfChild(cs[1..], s, t - 1);
      EntryIsVisible(cs[t], s);
    }
  }

  lemma AheadIsVisible(c: Cursor, s: nat)
    requires CursorOk(c)
    ensures Ahead(c, s) <= Vis(c, s)
    ensures forall e :: e in Ahead(c, s) ==> e.sn <= s
  {}

  lemma EntryIsVisible(c: Cursor, s: nat)
    requires CursorOk(c) && HasEntry(c)
    ensures At(c) in Vis(c, s) <==> At(c).sn <= s
  {}

  lemma {:induction false} AllVisible(cs: seq<Cursor>, s: nat)
    ensures forall e :: e in AllVis(cs, s) ==> e.sn <= s
  {
    if cs != [] { AllVisible(cs[1..], s); }
  }

  lemma {:induction false} VisOfChild(cs: seq<Cursor>, s: nat, i: nat)
    requires i < |cs|
    ensures Vis(cs[i], s) <= AllVis(cs, s)
  {
    if 0 < i { VisOfChild(cs[1..], s, i - 1); }
  }
}
