/** `DBIterator`: turns the merged stream of versions into the user keys visible at one
    sequence number, while writers keep inserting newer versions. */
module DbIterators {
  import opened Bytes
  import opened Entries
  import opened Iterators
  import opened IteratorViews

  /** `k` has a value for a reader at `s`, given the visible entries `v`. */
  ghost predicate Shown(v: set<Entry>, k: Bytes, s: nat) {
    exists e :: IsNewest(v, k, s, Some(e)) && e.kind.Value?
  }

  /** ... namely `value`. */
  ghost predicate Gives(v: set<Entry>, k: Bytes, s: nat, value: Bytes) {
    exists e :: IsNewest(v, k, s, Some(e)) && e.kind.Value? && e.value == value
  }

  lemma NewestGives(v: set<Entry>, e: Entry, s: nat)
    requires IsNewest(v, e.key, s, Some(e)) && e.kind.Value?
    ensures Gives(v, e.key, s, e.value)
  {}

  /** Everything already passed comes before everything ahead. */
  ghost predicate Frontier(v: set<Entry>, ahead: set<Entry>) {
    ahead <= v && forall a, b :: a in v && a !in ahead && b in ahead ==> Before(a, b)
  }

  /** Apart from the key being skipped, no key is passed only in part. */
  ghost predicate Whole(v: set<Entry>, ahead: set<Entry>, skipping: bool, skipKey: Bytes) {
    forall a, b :: a in v && b in ahead && a.key == b.key && !(skipping && b.key == skipKey) ==> a in ahead
  }

  ghost predicate IsLeast(ahead: set<Entry>, e: Entry) {
    e in ahead && forall b :: b in ahead ==> b == e || Before(e, b)
  }

  lemma PassKeepsFrontier(v: set<Entry>, ahead: set<Entry>, e: Entry)
    requires Frontier(v, ahead) && IsLeast(ahead, e)
    ensures Frontier(v, ahead - {e})
  {}

  /** The first version met of a whole key is its newest visible one. */
  lemma FirstOfKeyIsNewest(v: set<Entry>, ahead: set<Entry>, e: Entry, s: nat)
    requires Frontier(v, ahead) && IsLeast(ahead, e) && Whole(v, ahead, false, e.key)
    requires forall f :: f in v ==> f.sn <= s
    ensures IsNewest(v, e.key, s, Some(e))
  {
    LessIrreflexive(e.key);
  }

  lemma DeletedIsNotShown(v: set<Entry>, e: Entry, s: nat)
    requires UniqueVersions(v) && IsNewest(v, e.key, s, Some(e)) && e.kind.Deletion?
    ensures !Shown(v, e.key, s)
  {
    if Shown(v, e.key, s) {
      var f :| IsNewest(v, e.key, s, Some(f)) && f.kind.Value?;
      NewestIsUnique(v, e.key, s, Some(e), Some(f));
    }
  }

  /** A shown key has an entry among the visible ones. */
  lemma ShownHasEntry(v: set<Entry>, k: Bytes, s: nat) returns (e: Entry)
    requires Shown(v, k, s)
    ensures e in v && e.key == k
  {
    e :| IsNewest(v, k, s, Some(e)) && e.kind.Value?;
  }

  lemma TopOfVisible(cs: seq<Cursor>, s: nat, t: nat)
    requires CursorsOk(cs) && UniqueVersions(AllVis(cs, s)) && t < |cs| && HasEntry(cs[t]) && At(cs[t]).sn <= s
    requires forall i :: 0 <= i < |cs| && HasEntry(cs[i]) ==> !Before(At(cs[i]), At(cs[t]))
    ensures IsLeast(AllAhead(cs, s), At(cs[t]))
  {
    hide AllAhead;
    hide AllVis;
    var e := At(cs[t]);
    BeforeIsTotal();
    StepAhead(cs[t], s);
    AheadOfChild(cs, s, t);
    AheadWithinVis(cs, s);
    forall b | b in AllAhead(cs, s) ensures b == e || Before(e, b) {
      TopIsLeast(cs, s, t, b);
    }
  }

  /** No child stands before `k`. */
  ghost predicate NotBefore(cs: seq<Cursor>, k: Bytes) {
    forall i :: 0 <= i < |cs| && HasEntry(cs[i]) ==> !Less(At(cs[i]).key, k)
  }

  lemma StepNotBefore(cs: seq<Cursor>, t: nat, k: Bytes)
    requires CursorsOk(cs) && t < |cs| && HasEntry(cs[t]) && NotBefore(cs, k)
    ensures NotBefore(cs[t := Step(cs[t])], k)
  {
    LessIsStrictTotalOrder();
    var c := Step(cs[t]);
    if HasEntry(c) { assert Before(At(cs[t]), At(c)); }
  }

  lemma TopNotBefore(cs: seq<Cursor>, t: nat)
    requires CursorsOk(cs) && t < |cs| && HasEntry(cs[t])
    requires forall i :: 0 <= i < |cs| && HasEntry(cs[i]) ==> !Before(At(cs[i]), At(cs[t]))
    ensures NotBefore(cs, At(cs[t]).key)
  {}

  /** Once the top has left key `k`, no version of `k` is ahead. */
  lemma SkippedKeyIsBehind(cs: seq<Cursor>, s: nat, t: nat, k: Bytes)
    requires CursorsOk(cs) && t < |cs| && HasEntry(cs[t]) && NotBefore(cs, k) && At(cs[t]).key != k
    requires forall i :: 0 <= i < |cs| && HasEntry(cs[i]) ==> !Before(At(cs[i]), At(cs[t]))
    ensures forall b :: b in AllAhead(cs, s) ==> b.key != k
  {
    hide AllAhead;
    LessTotal(At(cs[t]).key, k);
    forall b | b in AllAhead(cs, s) ensures b.key != k {
      TopIsLeast(cs, s, t, b);
    }
  }

  lemma {:induction false} NothingAhead(cs: seq<Cursor>, s: nat)
    requires CursorsOk(cs) && Readable(cs) == {}
    ensures AllAhead(cs, s) == {}
  {
    forall i | 0 <= i < |cs| ensures !HasEntry(cs[i]) {
      assert HasEntry(cs[i]) ==> i in Readable(cs);
    }
    if AllAhead(cs, s) != {} {
      var e :| e in AllAhead(cs, s);
      var i := FindAhead(cs, s, e);
    }
  }

  ghost function From(v: set<Entry>, k: Bytes): set<Entry> { set e | e in v && !Less(e.key, k) }

  lemma SeekSplits(c: Cursor, k: Bytes, s: nat)
    requires Sorted(c.entries)
    ensures var c' := c.(pos := SeekIndex(c.entries, k, s));
      CursorOk(c') && Vis(c', s) == Vis(c, s) && Ahead(c', s) == From(Vis(c, s), k)
  {
    LessIsStrictTotalOrder();
    var i := SeekIndex(c.entries, k, s);
    var c' := c.(pos := i);
    forall e | e in Vis(c, s) ensures e in Ahead(c', s) <==> !Less(e.key, k) {
      var j :| 0 <= j < |c.entries| && c.entries[j] == e;
      SameSide(c', e, j);
      if i <= j {
        if i < j { assert Before(c.entries[i], c.entries[j]); }
      } else {
        assert !AtOrAfter(e, k, s);
        assert HasEntry(c') ==> Before(e, At(c'));
      }
    }
  }

  lemma {:induction false} SeekAllSplits(cs: seq<Cursor>, cs': seq<Cursor>, k: Bytes, s: nat)
    requires CursorsOk(cs) && |cs'| == |cs| && CursorsOk(cs')
    requires forall i :: 0 <= i < |cs| ==> cs'[i] == cs[i].(pos := SeekIndex(cs[i].entries, k, s))
    ensures AllVis(cs', s) == AllVis(cs, s) && AllAhead(cs', s) == From(AllVis(cs, s), k)
    ensures Distinct(cs', s) == Distinct(cs, s)
  {
    hide Vis;
    hide Ahead;
    hide SeekIndex;
    hide Sorted;
    if cs != [] {
      assert CursorOk(cs[0]);
      SeekSplits(cs[0], k, s);
      SeekAllSplits(cs[1..], cs'[1..], k, s);
    }
  }

  lemma FromIsFrontier(v: set<Entry>, k: Bytes, skipKey: Bytes)
    ensures Frontier(v, From(v, k)) && Whole(v, From(v, k), false, skipKey)
  {
    LessIsStrictTotalOrder();
  }

  lemma {:induction false} RewindShowsAll(cs: seq<Cursor>, cs': seq<Cursor>, s: nat)
    requires CursorsOk(cs) && |cs'| == |cs| && CursorsOk(cs')
    requires forall i :: 0 <= i < |cs| ==> cs'[i] == cs[i].(pos := 0)
    ensures AllVis(cs', s) == AllVis(cs, s) && AllAhead(cs', s) == AllVis(cs, s)
    ensures Distinct(cs', s) == Distinct(cs, s)
  {
    if cs != [] {
      assert cs'[0].entries[0..] == cs[0].entries;
      RewindShowsAll(cs[1..], cs'[1..], s);
    }
  }

  class DbIterator {
    const input: MergingIterator
    const visible: nat
    var skipKey: Bytes
    var valid: bool

    constructor (merged: MergingIterator, s: nat)
      ensures input == merged && visible == s && !valid
    {
      input := merged;
      visible := s;
      skipKey := [];
      valid := false;
    }

    /** All visible entries of the children. */
    ghost function Seen(): set<Entry>
      reads this, input
    {
      AllVis(input.children, visible)
    }

    /** Those the merged stream has still to deliver. */
    ghost function Left(): set<Entry>
      requires CursorsOk(input.children)
      reads this, input
    {
      AllAhead(input.children, visible)
    }

    ghost predicate Ok()
      reads this, input
    {
      && input.Valid() && Distinct(input.children, visible)
      && UniqueVersions(Seen()) && Frontier(Seen(), Left())
    }

    /** On a key: its newest visible version is at hand and none of its versions passed. */
    ghost predicate OnKey()
      reads this, input
    {
      && Ok() && input.HasCurrent() && valid
      && Whole(Seen(), Left(), false, [])
      && var e := input.Current();
         IsLeast(Left(), e) && e.kind.Value? && IsNewest(Seen(), e.key, visible, Some(e))
    }

    /** One advance of the input, seen from above. */
    method Advance() returns (e: Entry)
      requires Ok() && input.HasCurrent()
      modifies input
      ensures e == old(input.Current())
      ensures Ok() && Seen() == old(Seen()) && Left() == old(Left()) - {e}
      ensures forall k :: old(NotBefore(input.children, k)) ==> NotBefore(input.children, k)
      ensures NotBefore(input.children, e.key)
      ensures Remaining(input.children) == Remaining(old(input.children)) - 1
    {
      hide AllVis;
      hide AllAhead;
      hide Distinct;
      hide Remaining;
      hide UniqueVersions;
      hide Frontier;
      ghost var cs, t := input.children, input.Top();
      e := input.Peek();
      AdvanceViews(cs, visible, t);
      RemainingAfterNext(cs, t);
      TopNotBefore(cs, t);
      forall k | NotBefore(cs, k) ensures NotBefore(cs[t := Step(cs[t])], k) { StepNotBefore(cs, t, k); }
      if e.sn <= visible {
        TopOfVisible(cs, visible, t);
        PassKeepsFrontier(Seen(), Left(), e);
      } else {
        AllVisible(cs, visible);
        AheadWithinVis(cs, visible);
        assert AllAhead(cs, visible) - {e} == AllAhead(cs, visible);
      }
      input.Next();
      assert input.children == cs[t := Step(cs[t])];
    }

    /** Writers insert newer entries: nothing a reader sees changes. */
    method Concurrently(writes: nat) returns (left: nat)
      requires Ok()
      modifies input`children
      ensures Ok() && Seen() == old(Seen()) && Left() == old(Left())
      ensures input.HasCurrent() == old(input.HasCurrent())
      ensures forall k :: old(NotBefore(input.children, k)) ==> NotBefore(input.children, k)
      ensures Remaining(input.children) + left <= Remaining(old(input.children)) + writes
    {
      hide AllVis;
      hide AllAhead;
      hide Distinct;
      hide Remaining;
      ghost var cs := input.children;
      left := input.Interfere(visible, writes);
      InterferenceKeepsViews(cs, input.children, visible);
    }

    /** The loop of `findNextUserEntry`: `v` are the visible entries, `start` those ahead when
        it began, `firstKey` the key to skip if `skipFirst`; no key passed since is shown. */
    ghost predicate Searching(v: set<Entry>, start: set<Entry>, skipFirst: bool, firstKey: Bytes, skipping: bool)
      reads this, input
    {
      && Ok() && Seen() == v && Left() <= start && !valid
      && Whole(v, Left(), skipping, skipKey)
      && (skipping ==> NotBefore(input.children, skipKey))
      && (skipping ==> (skipFirst && skipKey == firstKey) || !Shown(v, skipKey, visible))
      && (forall x :: x in start && x !in Left() && !(skipFirst && x.key == firstKey) ==> !Shown(v, x.key, visible))
      && (skipFirst && !(skipping && skipKey == firstKey) ==> forall x :: x in Left() ==> x.key != firstKey)
    }

    /** Concurrent writes do not disturb the search. */
    method Wait(writes: nat, ghost v: set<Entry>, ghost start: set<Entry>, ghost skipFirst: bool, ghost firstKey: Bytes,
                ghost skipping: bool)
      returns (left: nat)
      requires Searching(v, start, skipFirst, firstKey, skipping) && input.HasCurrent()
      modifies input`children
      ensures Searching(v, start, skipFirst, firstKey, skipping) && input.HasCurrent()
      ensures Remaining(input.children) + left <= Remaining(old(input.children)) + writes
    {
      hide AllVis;
      hide AllAhead;
      hide Distinct;
      hide Remaining;
      hide UniqueVersions;
      hide Frontier;
      hide Whole;
      hide NotBefore;
      hide Shown;
      left := Concurrently(writes);
    }

    /** Pass an entry of the key being skipped, or one too new to be seen. */
    method Pass(skipping: bool, ghost v: set<Entry>, ghost start: set<Entry>, ghost skipFirst: bool, ghost firstKey: Bytes)
      requires Searching(v, start, skipFirst, firstKey, skipping) && input.HasCurrent()
      requires var e := input.Current(); e.sn > visible || (skipping && e.key == skipKey)
      modifies input
      ensures Searching(v, start, skipFirst, firstKey, skipping)
      ensures Remaining(input.children) == Remaining(old(input.children)) - 1
    {
      hide AllVis;
      hide AllAhead;
      hide Distinct;
      hide Remaining;
      hide UniqueVersions;
      hide Frontier;
      hide NotBefore;
      hide Shown;
      ghost var cs := input.children;
      AllVisible(cs, visible);
      AheadWithinVis(cs, visible);
      var e := Advance();
    }

    /** `findNextUserEntry`: move to the first key, among those still ahead and apart from
        a key being skipped, that a reader at `visible` sees. `writes` bounds how many
        insertions happen meanwhile. */
    method FindNextUserEntry(skipFirst: bool, writes: nat)
      requires Ok() && Whole(Seen(), Left(), skipFirst, skipKey)
      requires skipFirst ==> NotBefore(input.children, skipKey)
      modifies this, input
      ensures Ok() && Seen() == old(Seen()) && Left() <= old(Left())
      ensures valid ==> OnKey() && input.Current() in old(Left())
                        && !(skipFirst && input.Current().key == old(skipKey))
      ensures forall x :: x in old(Left()) && !(skipFirst && x.key == old(skipKey)) ==>
                (if valid then Less(x.key, input.Current().key) else true) ==> !Shown(Seen(), x.key, visible)
    {
      hide AllVis;
      hide AllAhead;
      hide Distinct;
      hide Remaining;
      hide UniqueVersions;
      hide Frontier;
      hide IsNewest;
      hide NotBefore;
      hide Shown;
      ghost var v, start, firstKey := Seen(), Left(), skipKey;
      valid := false;
      var skipping, budget := skipFirst, writes;
      while input.HasCurrent()
        invariant Searching(v, start, skipFirst, firstKey, skipping)
        decreases Remaining(input.children) + budget
      {
        budget := Wait(budget, v, start, skipFirst, firstKey, skipping);
        var e := input.Peek();
        if skipping {
          if e.key == skipKey {
            Pass(skipping, v, start, skipFirst, firstKey);
            continue;
          }
          StopSkipping(v, start, skipFirst, firstKey);
          skipping := false;
        }
        if e.sn > visible {
          Pass(skipping, v, start, skipFirst, firstKey);
          continue;
        }
        AtNewest(v, start, skipFirst, firstKey);
        if e.kind.Deletion? {
          DeletedIsNotShown(v, e, visible);
          SkipDeleted(v, start, skipFirst, firstKey, e);
          skipping := true;
          Pass(skipping, v, start, skipFirst, firstKey);
          continue;
        }
        valid := true;
        KeysBelowAreBehind(Left(), e);
        return;
      }
      NothingAhead(input.children, visible);
      skipKey := [];
    }

    /** The merged stream has left the skipped key, so none of its versions is ahead. */
    method StopSkipping(ghost v: set<Entry>, ghost start: set<Entry>, ghost skipFirst: bool, ghost firstKey: Bytes)
      requires Searching(v, start, skipFirst, firstKey, true) && input.HasCurrent() && input.Current().key != skipKey
      modifies this`skipKey
      ensures Searching(v, start, skipFirst, firstKey, false)
    {
      hide AllVis;
      hide AllAhead;
      hide Distinct;
      hide UniqueVersions;
      hide Frontier;
      hide Shown;
      SkippedKeyIsBehind(input.children, visible, input.Top(), skipKey);
      hide NotBefore;
      skipKey := [];
    }

    /** From here on the versions of a deleted key are skipped. */
    method SkipDeleted(ghost v: set<Entry>, ghost start: set<Entry>, ghost skipFirst: bool, ghost firstKey: Bytes, e: Entry)
      requires Searching(v, start, skipFirst, firstKey, false) && input.HasCurrent() && e == input.Current()
      requires !Shown(v, e.key, visible) && e in Left()
      modifies this`skipKey
      ensures Searching(v, start, skipFirst, firstKey, true) && skipKey == e.key
    {
      hide AllVis;
      hide AllAhead;
      hide Distinct;
      hide UniqueVersions;
      hide Frontier;
      hide Shown;
      TopNotBefore(input.children, input.Top());
      hide NotBefore;
      skipKey := e.key;
    }

    /** The visible entry on top is the newest visible version of its key. */
    lemma AtNewest(v: set<Entry>, start: set<Entry>, skipFirst: bool, firstKey: Bytes)
      requires Searching(v, start, skipFirst, firstKey, false) && input.HasCurrent() && input.Current().sn <= visible
      ensures IsLeast(Left(), input.Current()) && IsNewest(v, input.Current().key, visible, Some(input.Current()))
    {
      hide AllVis;
      hide AllAhead;
      hide Distinct;
      hide Frontier;
      hide Shown;
      hide NotBefore;
      AllVisible(input.children, visible);
      TopOfVisible(input.children, visible, input.Top());
      hide UniqueVersions;
      FirstOfKeyIsNewest(v, Left(), input.Current(), visible);
    }

    /** The children are sorted runs that share no visible entry. */
    ghost predicate Usable()
      reads this, input
    {
      CursorsOk(input.children) && Distinct(input.children, visible) && UniqueVersions(Seen())
    }

    method SeekToFirst(writes: nat)
      requires Usable()
      modifies this, input
      ensures Ok() && Seen() == old(Seen())
      ensures valid ==> OnKey()
      ensures forall k :: (valid ==> Less(k, input.Current().key)) ==> !Shown(Seen(), k, visible)
    {
      hide Distinct;
      hide Shown;
      hide IsNewest;
      ghost var cs, v := input.children, Seen();
      valid := false;
      skipKey := [];
      input.SeekToFirst();
      RewindShowsAll(cs, input.children, visible);
      FindNextUserEntry(false, writes);
      forall k | valid ==> Less(k, input.Current().key) ensures !Shown(v, k, visible) {
        if Shown(v, k, visible) { var x := ShownHasEntry(v, k, visible); }
      }
    }

    /** Lands on the least key from `target` on that a reader at `visible` sees. */
    method Seek(target: Bytes, writes: nat)
      requires Usable()
      modifies this, input
      ensures Ok() && Seen() == old(Seen())
      ensures valid ==> OnKey() && !Less(input.Current().key, target)
      ensures forall k :: !Less(k, target) && (valid ==> Less(k, input.Current().key)) ==> !Shown(Seen(), k, visible)
    {
      hide Distinct;
      hide AllVis;
      hide AllAhead;
      hide Shown;
      hide IsNewest;
      hide UniqueVersions;
      hide SeekIndex;
      ghost var cs, v := input.children, Seen();
      valid := false;
      skipKey := [];
      input.Seek(target, visible);
      SeekAllSplits(cs, input.children, target, visible);
      FromIsFrontier(v, target, skipKey);
      FindNextUserEntry(false, writes);
      forall k | !Less(k, target) && (valid ==> Less(k, input.Current().key)) ensures !Shown(v, k, visible) {
        if Shown(v, k, visible) { var x := ShownHasEntry(v, k, visible); }
      }
    }

    /** From one seen key to the next larger one. */
    method Next(writes: nat)
      requires OnKey()
      modifies this, input
      ensures Ok() && Seen() == old(Seen()) && Left() < old(Left())
      ensures valid ==> OnKey() && Less(old(input.Current().key), input.Current().key)
      ensures forall k :: Less(old(input.Current().key), k) && (valid ==> Less(k, input.Current().key)) ==>
                !Shown(Seen(), k, visible)
    {
      hide Distinct;
      hide AllVis;
      hide AllAhead;
      hide Shown;
      hide IsNewest;
      hide UniqueVersions;
      ghost var v, start, e := Seen(), Left(), input.Current();
      var c := input.Peek();
      skipKey := c.key;
      valid := false;
      c := Advance();
      FindNextUserEntry(true, writes);
      LaterKeysAreAhead(v, start, e);
      LessIrreflexive(e.key);
      forall k | Less(e.key, k) && (valid ==> Less(k, input.Current().key)) ensures !Shown(v, k, visible) {
        if Shown(v, k, visible) { var x := ShownHasEntry(v, k, visible); }
      }
    }
  }

  /** A full scan: from `target` on, every key a reader at the iterator's sequence
      number sees, each once, ascending, with the value it sees, and nothing else. */
  method ScanFrom(it: DbIterator, target: Bytes, writes: nat) returns (out: seq<(Bytes, Bytes)>)
    requires it.Usable()
    modifies it, it.input
    ensures it.Seen() == old(it.Seen())
    ensures forall i, j :: 0 <= i < j < |out| ==> Less(out[i].0, out[j].0)
    ensures forall i :: 0 <= i < |out| ==>
              Gives(it.Seen(), out[i].0, it.visible, out[i].1)
    ensures forall k :: !Less(k, target) && Shown(it.Seen(), k, it.visible) ==> exists i :: 0 <= i < |out| && out[i].0 == k
    ensures forall i :: 0 <= i < |out| ==> !Less(out[i].0, target)
  {
    hide AllVis;
    hide AllAhead;
    hide Shown;
    hide Gives;
    hide IsNewest;
    hide UniqueVersions;
    hide Distinct;
    hide Frontier;
    hide Whole;
    hide IsLeast;
    out := [];
    it.Seek(target, writes);
    while it.valid
      invariant it.Ok() && it.Seen() == old(it.Seen()) && (it.valid ==> it.OnKey())
      invariant forall i, j :: 0 <= i < j < |out| ==> Less(out[i].0, out[j].0)
      invariant forall i :: 0 <= i < |out| && it.valid ==> Less(out[i].0, it.input.Current().key)
      invariant it.valid ==> !Less(it.input.Current().key, target)
      invariant forall i :: 0 <= i < |out| ==> !Less(out[i].0, target)
      invariant forall i :: 0 <= i < |out| ==>
                  Gives(it.Seen(), out[i].0, it.visible, out[i].1)
      invariant forall k :: !Less(k, target) && (it.valid ==> Less(k, it.input.Current().key)) && Shown(it.Seen(), k, it.visible) ==>
                  exists i :: 0 <= i < |out| && out[i].0 == k
      decreases it.Left()
    {
      var e := it.input.Peek();
      ghost var before := out;
      NewestGives(it.Seen(), e, it.visible);
      out := out + [(e.key, e.value)];
      it.Next(writes);
      ScanStep(before, e.key, e.value, target, it);
    }
  }

  /** Ordering facts for one turn of the scan. */
  lemma ScanStep(before: seq<(Bytes, Bytes)>, k0: Bytes, v0: Bytes, target: Bytes, it: DbIterator)
    requires it.Ok() && it.input.Valid() && !Less(k0, target)
    requires forall i :: 0 <= i < |before| ==> Less(before[i].0, k0)
    requires it.valid ==> it.input.HasCurrent() && Less(k0, it.input.Current().key)
    ensures it.valid ==> !Less(it.input.Current().key, target)
    ensures forall i :: 0 <= i < |before| && it.valid ==> Less(before[i].0, it.input.Current().key)
    ensures forall k :: Less(k, k0) || k == k0 || Less(k0, k)
    ensures (before + [(k0, v0)])[|before|].0 == k0
    ensures forall i :: 0 <= i < |before| ==> (before + [(k0, v0)])[i] == before[i]
  {
    LessIsStrictTotalOrder();
  }

  lemma LaterKeysAreAhead(v: set<Entry>, ahead: set<Entry>, e: Entry)
    requires Frontier(v, ahead) && IsLeast(ahead, e)
    ensures forall x :: x in v && Less(e.key, x.key) ==> x in ahead
    ensures forall x :: x in ahead && x.key != e.key ==> Less(e.key, x.key)
  {
    LessIsStrictTotalOrder();
  }

  lemma KeysBelowAreBehind(ahead: set<Entry>, e: Entry)
    requires IsLeast(ahead, e)
    ensures forall x :: x in ahead ==> !Less(x.key, e.key)
  {
    LessIsStrictTotalOrder();
  }
}