/** The skip list under a MemTable: one writer linking nodes bottom-up, readers searching
    in any state in between. Nodes are numbered in allocation order; 0 is the head, and as
    a link 0 is the null pointer. */
module SkipLists {
  import opened Bytes
  import opened Entries

  const MAX_HEIGHT := 12

  // ---------- links ----------

  /** `nextAt`: the link of node `n` at level `l`. */
  function Link(next: seq<seq<nat>>, n: nat, l: nat): nat {
    if n < |next| && l < |next[n]| then next[n][l] else 0
  }

  function Height(next: seq<seq<nat>>, n: nat): nat { if n < |next| then |next[n]| else 0 }

  /** `setNext`. */
  function WithLink(next: seq<seq<nat>>, n: nat, l: nat, to: nat): seq<seq<nat>>
    requires n < |next| && l < |next[n]|
  {
    var links: seq<nat> := next[n][l := to];
    next[n := links]
  }

  lemma WithLinkAt(next: seq<seq<nat>>, n: nat, l: nat, to: nat)
    requires n < |next| && l < |next[n]|
    ensures |WithLink(next, n, l, to)| == |next|
    ensures forall m :: 0 <= m ==> Height(WithLink(next, n, l, to), m) == Height(next, m)
    ensures forall m, k :: 0 <= m && 0 <= k ==> Link(WithLink(next, n, l, to), m, k) == if m == n && k == l then to else Link(next, m, k)
  {}

  // ---------- one level ----------

  /** The node before position `i` of a chain. */
  function Pred(chain: seq<nat>, i: nat): nat
    requires i <= |chain|
  {
    if i == 0 then 0 else chain[i - 1]
  }

  ghost predicate ChainOk(keys: seq<Entry>, chain: seq<nat>) {
    && (forall i :: 0 <= i < |chain| ==> 0 < chain[i] < |keys|)
    && (forall i, j :: 0 <= i < j < |chain| ==> Before(keys[chain[i]], keys[chain[j]]))
  }

  ghost predicate TallEnough(next: seq<seq<nat>>, chain: seq<nat>, l: nat) {
    forall i :: 0 <= i < |chain| ==> l < Height(next, chain[i])
  }

  /** `chain` lists exactly the nodes linked at level `l`. */
  ghost predicate LinksOk(next: seq<seq<nat>>, chain: seq<nat>, l: nat) {
    && (forall i :: 0 <= i < |chain| ==> Link(next, Pred(chain, i), l) == chain[i])
    && Link(next, Pred(chain, |chain|), l) == 0
  }

  ghost predicate LevelOk(keys: seq<Entry>, next: seq<seq<nat>>, chain: seq<nat>, l: nat) {
    ChainOk(keys, chain) && TallEnough(next, chain, l) && LinksOk(next, chain, l)
  }

  function Inserted(chain: seq<nat>, pos: nat, node: nat): (c: seq<nat>)
    requires pos <= |chain|
    ensures |c| == |chain| + 1
    ensures forall i :: 0 <= i < |c| ==> c[i] == if i < pos then chain[i] else if i == pos then node else chain[i - 1]
  {
    chain[..pos] + [node] + chain[pos..]
  }

  /** Where a key belongs in a chain. */
  ghost predicate Splits(keys: seq<Entry>, chain: seq<nat>, e: Entry, pos: nat) {
    && pos <= |chain| && (forall i :: 0 <= i < |chain| ==> chain[i] < |keys|)
    && (forall i :: 0 <= i < pos ==> Before(keys[chain[i]], e))
    && (forall i :: pos <= i < |chain| ==> Before(e, keys[chain[i]]))
  }

  lemma NotInChain(keys: seq<Entry>, chain: seq<nat>, node: nat, pos: nat)
    requires ChainOk(keys, chain) && node < |keys| && Splits(keys, chain, keys[node], pos)
    ensures node !in chain
  {
    BeforeIsStrictOrder();
  }

  lemma InsertedChain(keys: seq<Entry>, chain: seq<nat>, node: nat, pos: nat)
    requires ChainOk(keys, chain) && 0 < node < |keys| && Splits(keys, chain, keys[node], pos)
    ensures ChainOk(keys, Inserted(chain, pos, node))
  {
    hide Before;
  }

  /** No node occurs twice, so one link has one predecessor. */
  lemma DistinctPreds(keys: seq<Entry>, chain: seq<nat>, pos: nat)
    requires ChainOk(keys, chain) && pos <= |chain|
    ensures forall j :: 0 <= j <= |chain| && j != pos ==> Pred(chain, j) != Pred(chain, pos)
  {
    BeforeIsStrictOrder();
  }

  ghost predicate Relinked(next: seq<seq<nat>>, next': seq<seq<nat>>, l: nat, prev: nat, node: nat) {
    && (forall m :: 0 <= m ==> Link(next', m, l) == if m == prev then node else if m == node then Link(next, prev, l) else Link(next, m, l))
    && (forall m, k :: 0 <= m && 0 <= k && k != l ==> Link(next', m, k) == Link(next, m, k))
    && (forall m :: 0 <= m ==> Height(next', m) == Height(next, m))
  }

  lemma InsertedTall(next: seq<seq<nat>>, next': seq<seq<nat>>, chain: seq<nat>, l: nat, node: nat, pos: nat)
    requires TallEnough(next, chain, l) && l < Height(next, node) && pos <= |chain| && Relinked(next, next', l, Pred(chain, pos), node)
    ensures TallEnough(next', Inserted(chain, pos, node), l)
  {
    hide Link;
    hide Height;
  }

  lemma LinkedLevel(keys: seq<Entry>, next: seq<seq<nat>>, next': seq<seq<nat>>, chain: seq<nat>, l: nat, node: nat, pos: nat)
    requires LevelOk(keys, next, chain, l) && 0 < node < |keys| && Splits(keys, chain, keys[node], pos) && l < Height(next, node)
    requires Relinked(next, next', l, Pred(chain, pos), node)
    ensures LevelOk(keys, next', Inserted(chain, pos, node), l)
  {
    hide ChainOk;
    hide LinksOk;
    hide TallEnough;
    hide Relinked;
    NotInChain(keys, chain, node, pos);
    InsertedChain(keys, chain, node, pos);
    DistinctPreds(keys, chain, pos);
    LinkedIn(next, next', chain, l, node, pos);
    InsertedTall(next, next', chain, l, node, pos);
  }

  lemma OtherLevel(keys: seq<Entry>, next: seq<seq<nat>>, next': seq<seq<nat>>, chain: seq<nat>, l: nat, m: nat, prev: nat, node: nat)
    requires LevelOk(keys, next, chain, m) && l != m && Relinked(next, next', l, prev, node)
    ensures LevelOk(keys, next', chain, m)
  {
    hide Before;
    hide Link;
    hide Height;
  }

  /** Allocating an unlinked node changes no level. */
  lemma AllocatedLevel(keys: seq<Entry>, next: seq<seq<nat>>, chain: seq<nat>, m: nat, e: Entry, links: seq<nat>)
    requires LevelOk(keys, next, chain, m) && |keys| == |next| && 1 <= |next| && forall i :: 0 <= i < |links| ==> links[i] == 0
    ensures LevelOk(keys + [e], next + [links], chain, m)
  {
    hide Before;
    assert forall n :: 0 <= n < |next| ==> (next + [links])[n] == next[n];
  }

  /** Pointing the new node at its successor and its predecessor at it links it in. */
  lemma LinkedIn(next: seq<seq<nat>>, next': seq<seq<nat>>, chain: seq<nat>, l: nat, node: nat, pos: nat)
    requires LinksOk(next, chain, l) && pos <= |chain| && node !in chain && node != 0
    requires forall j :: 0 <= j <= |chain| && j != pos ==> Pred(chain, j) != Pred(chain, pos)
    requires Relinked(next, next', l, Pred(chain, pos), node)
    ensures LinksOk(next', Inserted(chain, pos, node), l)
  {
    hide Link;
    var c := Inserted(chain, pos, node);
    forall i | 0 <= i <= |c| ensures Link(next', Pred(c, i), l) == if i < |c| then c[i] else 0 {
      assert Pred(c, i) == if i <= pos then Pred(chain, i) else if i == pos + 1 then node else Pred(chain, i - 1);
    }
  }

  // ---------- the object ----------

  class SkipList {
    var keys: seq<Entry>
    var next: seq<seq<nat>>
    var maxHeight: nat
    ghost var chains: seq<seq<nat>>

    /** Holds after every single link write: readers rely on nothing else. */
    ghost predicate Valid()
      reads this
    {
      && |keys| == |next| && 1 <= |next| && |next[0]| == MAX_HEIGHT && 1 <= maxHeight <= MAX_HEIGHT && |chains| == MAX_HEIGHT
      && (forall l :: 0 <= l < MAX_HEIGHT ==> LevelOk(keys, next, chains[l], l))
      && (forall k, l :: 0 <= k < l < MAX_HEIGHT ==> Within(chains[l], chains[k]))
    }

    /** Between inserts nothing is linked above the height readers start from. */
    ghost predicate Settled()
      reads this
    {
      Valid() && forall l :: maxHeight <= l < MAX_HEIGHT ==> chains[l] == []
    }

    /** The entries in list order. */
    ghost function Contents(): seq<Entry>
      requires Valid()
      reads this
    {
      KeysOf(keys, chains[0])
    }

    constructor ()
      ensures Settled() && Contents() == []
    {
      keys := [Entry([], 0, Deletion, [])];
      next := [seq(MAX_HEIGHT, i => 0)];
      maxHeight := 1;
      chains := seq(MAX_HEIGHT, i => []);
    }

    /** A reader standing on `node` at level `l`: the head, or a linked node below the target. */
    ghost predicate ReaderAt(node: nat, l: nat, target: Entry)
      reads this
    {
      l < |chains| && (node == 0 || (node in chains[l] && node < |keys| && Before(keys[node], target)))
    }

    /** One step of the search: right along a level, down, or done. Any reader position may
        take it in any state, whatever links were written since the last step. */
    method SearchStep(node: nat, l: nat, target: Entry) returns (node': nat, l': nat, done: bool)
      requires Valid() && ReaderAt(node, l, target)
      ensures !done ==> ReaderAt(node', l', target)
      ensures !done ==>
        || (l' + 1 == l && node' == node)
        || (l' == l && node' in chains[l] && After(chains[l], node) < After(chains[l], node'))
      ensures !done && l' < l ==> HasSplit(keys, chains[l], target, node)
      ensures done ==> l == 0 && l' == 0 && IsLeast(keys, chains[0], node', target) && HasSplit(keys, chains[0], target, node)
    {
      hide Before;
      hide After;
      hide HasSplit;
      hide IsLeast;
      hide LevelOk;
      var succ := Link(next, node, l);
      assert LevelOk(keys, next, chains[l], l);
      StepFacts(keys, next, chains[l], node, l, target);
      if succ != 0 && Before(keys[succ], target) {
        return succ, l, false;
      }
      if l == 0 { return succ, 0, true; }
      assert Within(chains[l], chains[l - 1]);
      return node, l - 1, false;
    }

    /** Every reader position stays one: links are only added. */
    twostate predicate ReadersKept()
      reads this
    {
      && |old(chains)| == |chains| && |old(keys)| <= |keys| && (forall n :: 0 <= n < |old(keys)| ==> keys[n] == old(keys)[n])
      && forall l :: 0 <= l < |chains| ==> Within(old(chains)[l], chains[l])
    }

    /** Allocate a node of the given height, linked nowhere. */
    method NewNode(e: Entry, height: nat) returns (node: nat)
      requires Valid() && 1 <= height <= MAX_HEIGHT
      modifies this`keys, this`next
      ensures Valid() && ReadersKept() && node == |old(keys)| && keys == old(keys) + [e] && Height(next, node) == height
    {
      hide LevelOk;
      hide Within;
      node := |keys|;
      var links: seq<nat> := seq(height, i => 0);
      forall l | 0 <= l < MAX_HEIGHT ensures LevelOk(keys + [e], next + [links], chains[l], l) {
        AllocatedLevel(keys, next, chains[l], l, e, links);
      }
      WithinItself(chains);
      keys, next := keys + [e], next + [links];
    }

    /** Link the node in at one level: first its own link, then its predecessor's. The list
        is valid for readers after each of the two writes. */
    method LinkLevel(node: nat, l: nat, prev: nat, ghost pos: nat)
      requires Valid() && l < MAX_HEIGHT && 0 < node < |keys| && l < Height(next, node)
      requires Splits(keys, chains[l], keys[node], pos) && prev == Pred(chains[l], pos)
      requires forall k :: 0 <= k < l ==> node in chains[k]
      modifies this`next, this`chains
      ensures Valid() && ReadersKept() && chains == old(chains)[l := Inserted(old(chains)[l], pos, node)]
      ensures forall n :: 0 <= n ==> Height(next, n) == Height(old(next), n)
    {
      hide LevelOk;
      hide Within;
      ghost var next0, chain := next, chains[l];
      assert LevelOk(keys, next0, chain, l);
      PredOk(keys, next, chain, l, node, pos);
      WithLinkAt(next, node, l, Link(next, prev, l));
      next := WithLink(next, node, l, Link(next, prev, l));
      forall m | 0 <= m < MAX_HEIGHT ensures LevelOk(keys, next, chains[m], m) {
        UnlinkedWrite(keys, next0, next, chains[m], m, l, node, if m == l then pos else 0);
      }
      assert Valid();
      ghost var next1 := next;
      WithLinkAt(next, prev, l, node);
      next := WithLink(next, prev, l, node);
      BothWrites(next0, next1, next, l, prev, node);
      LinkedLevel(keys, next0, next, chain, l, node, pos);
      forall m | 0 <= m < MAX_HEIGHT && m != l ensures LevelOk(keys, next, chains[m], m) {
        OtherLevel(keys, next0, next, chains[m], l, m, prev, node);
      }
      NestedStill(chains, l, pos, node);
      chains := chains[l := Inserted(chain, pos, node)];
    }

    /** Search from the top level; `previous` is the last node below the target per level. */
    method FindGreaterOrEqual(target: Entry) returns (found: nat, previous: seq<nat>)
      requires Valid()
      ensures IsLeast(keys, chains[0], found, target)
      ensures |previous| == maxHeight && forall l :: 0 <= l < maxHeight ==> HasSplit(keys, chains[l], target, previous[l])
    {
      hide Before;
      hide After;
      hide HasSplit;
      hide IsLeast;
      hide LevelOk;
      hide Within;
      var node: nat, level: nat, done := 0, maxHeight - 1, false;
      previous := seq(maxHeight, i => 0);
      while !done
        invariant Valid() && level < maxHeight && |previous| == maxHeight
        invariant !done ==> ReaderAt(node, level, target)
        invariant done ==> level == 0 && IsLeast(keys, chains[0], node, target)
        invariant forall l :: (if done then 0 else level + 1) <= l < maxHeight ==> HasSplit(keys, chains[l], target, previous[l])
        decreases !done, level, |chains[level]| + 1 - After(chains[level], node)
      {
        var node', level', finished := SearchStep(node, level, target);
        AfterBound(chains[level], node);
        AfterBound(chains[level], node');
        if finished || level' < level { previous := previous[level := node]; }
        node, level, done := node', level', finished;
      }
      found := node;
    }

    /** The predecessors at every level of the new node; above the old height, the head. */
    method FindPredecessors(e: Entry, height: nat) returns (previous: seq<nat>, ghost ps: seq<nat>)
      requires Settled() && 1 <= height <= MAX_HEIGHT && forall f :: f in Contents() ==> KeyOf(f) != KeyOf(e)
      ensures height <= |previous| && |ps| == height
      ensures forall l :: 0 <= l < height ==> Splits(keys, chains[l], e, ps[l]) && Pred(chains[l], ps[l]) == previous[l]
    {
      hide LevelOk;
      hide Within;
      hide HasSplit;
      hide IsLeast;
      hide KeysOf;
      hide Splits;
      var found;
      found, previous := FindGreaterOrEqual(e);
      while |previous| < height
        invariant maxHeight <= |previous| && forall l :: 0 <= l < |previous| ==> l < maxHeight || previous[l] == 0
        invariant forall l :: 0 <= l < maxHeight ==> HasSplit(keys, chains[l], e, previous[l])
      {
        previous := previous + [0];
      }
      ps := Positions(chains, e, previous, height);
    }

    /** Link the node in bottom-up. */
    method LinkAll(node: nat, height: nat, previous: seq<nat>, ghost ps: seq<nat>)
      requires Valid() && 0 < node < |keys| && Height(next, node) == height <= MAX_HEIGHT && height <= |previous| && |ps| == height
      requires forall l :: 0 <= l < height ==> Splits(keys, chains[l], keys[node], ps[l]) && Pred(chains[l], ps[l]) == previous[l]
      modifies this`next, this`chains
      ensures Valid() && ReadersKept()
      ensures forall l :: 0 <= l < height ==> ps[l] <= |old(chains)[l]| && chains[l] == Inserted(old(chains)[l], ps[l], node)
      ensures forall l :: height <= l < MAX_HEIGHT ==> chains[l] == old(chains)[l]
    {
      hide LevelOk;
      hide Within;
      hide Height;
      ghost var before := chains;
      WithinItself(chains);
      for level := 0 to height
        invariant Valid() && |before| == |chains| && Height(next, node) == height
        invariant forall l :: 0 <= l < level ==> ps[l] <= |before[l]| && chains[l] == Inserted(before[l], ps[l], node)
        invariant forall l :: level <= l < MAX_HEIGHT ==> chains[l] == before[l]
        invariant forall l :: 0 <= l < MAX_HEIGHT ==> Within(before[l], chains[l])
      {
        forall k | 0 <= k < level ensures node in chains[k] { assert chains[k][ps[k]] == node; }
        ghost var mid := chains;
        LinkLevel(node, level, previous[level], ps[level]);
        forall l | 0 <= l < MAX_HEIGHT ensures Within(before[l], chains[l]) { WithinTransitive(before[l], mid[l], chains[l]); }
      }
    }

    /** Insert a key not in the list yet, with the height drawn for it. */
    method InsertEntry(e: Entry, height: nat)
      requires Settled() && 1 <= height <= MAX_HEIGHT && forall f :: f in Contents() ==> KeyOf(f) != KeyOf(e)
      modifies this
      ensures Settled() && ReadersKept() && Contents() == Insert(old(Contents()), e)
    {
      hide LevelOk;
      hide Within;
      hide Splits;
      hide Height;
      ghost var before, ks := chains, keys;
      var previous, ps := FindPredecessors(e, height);
      var node := NewNode(e, height);
      forall l | 0 <= l < height ensures Splits(keys, chains[l], e, ps[l]) { SplitStays(ks, e, before[l], ps[l]); }
      LinkAll(node, height, previous, ps);
      if height > maxHeight { maxHeight := height; }
      ContentsAfter(ks, e, before[0], ps[0]);
    }

    /** Where the new key goes at each of its levels. */
    lemma Positions(before: seq<seq<nat>>, e: Entry, previous: seq<nat>, height: nat) returns (ps: seq<nat>)
      requires Settled() && before == chains && 1 <= height <= MAX_HEIGHT && height <= |previous|
      requires forall f :: f in Contents() ==> KeyOf(f) != KeyOf(e)
      requires forall l :: 0 <= l < |previous| ==> l < maxHeight || previous[l] == 0
      requires forall l :: 0 <= l < maxHeight && l < |previous| ==> HasSplit(keys, chains[l], e, previous[l])
      ensures |ps| == height
      ensures forall l :: 0 <= l < height ==> Splits(keys, before[l], e, ps[l]) && Pred(before[l], ps[l]) == previous[l]
    {
      hide LevelOk;
      ps := [];
      while |ps| < height
        invariant |ps| <= height
        invariant forall l :: 0 <= l < |ps| ==> Splits(keys, before[l], e, ps[l]) && Pred(before[l], ps[l]) == previous[l]
      {
        var l := |ps|;
        var p := 0;
        if l < maxHeight {
          p :| IsSplit(keys, chains[l], e, p, previous[l]);
          assert LevelOk(keys, next, chains[l], l);
          assert l == 0 || Within(chains[l], chains[0]);
          AboveSplit(keys, chains[0], chains[l], e, p, previous[l]);
        }
        ps := ps + [p];
      }
    }

    method IsEmpty() returns (r: bool)
      requires Valid()
      ensures r == (Contents() == [])
    {
      hide Within;
      assert LevelOk(keys, next, chains[0], 0);
      r := Link(next, 0, 0) == 0;
      assert chains[0] != [] ==> Link(next, Pred(chains[0], 0), 0) == chains[0][0];
    }

    /** Walking level 0 from the head visits the entries in order. */
    method Scan() returns (es: seq<Entry>)
      requires Valid()
      ensures es == Contents() && Sorted(es)
    {
      hide LevelOk;
      hide Within;
      hide KeysOf;
      hide Sorted;
      assert LevelOk(keys, next, chains[0], 0);
      LevelSorted(keys, next, chains[0]);
      es := [];
      var node := Link(next, 0, 0);
      ghost var i := 0;
      while node != 0
        invariant 0 <= i <= |chains[0]| && es == KeysOf(keys, chains[0])[..i]
        invariant node == Link(next, Pred(chains[0], i), 0)
        decreases |chains[0]| - i
      {
        ChainLink(keys, next, chains[0], i);
        es := es + [keys[node]];
        node := Link(next, node, 0);
        i := i + 1;
      }
      ChainLink(keys, next, chains[0], i);
    }

    /** The MemTable lookup: the first entry not before (`k`, `s`, kValue), if it is of `k`. */
    method Get(k: Bytes, s: nat) returns (r: Option<Entry>)
      requires Valid()
      ensures r == Lookup(Contents(), k, s)
    {
      hide LevelOk;
      hide Lookup;
      hide HasSplit;
      hide IsLeast;
      hide KeysOf;
      var found, previous := FindGreaterOrEqual(Entry(k, s, Value, []));
      assert LevelOk(keys, next, chains[0], 0);
      LevelChain(keys, next, chains[0], 0);
      LeastIsLookup(keys, chains[0], found, k, s);
      if found == 0 || keys[found].key != k { return None; }
      return Some(keys[found]);
    }
  }

  // ---------- searching ----------

  ghost predicate Within(a: seq<nat>, b: seq<nat>) { forall n :: n in a ==> n in b }

  lemma WithinTransitive(a: seq<nat>, b: seq<nat>, c: seq<nat>)
    requires Within(a, b) && Within(b, c)
    ensures Within(a, c)
  {}

  lemma WithinItself(chains: seq<seq<nat>>)
    ensures forall l :: 0 <= l < |chains| ==> Within(chains[l], chains[l])
  {}

  lemma PredOk(keys: seq<Entry>, next: seq<seq<nat>>, chain: seq<nat>, l: nat, node: nat, pos: nat)
    requires LevelOk(keys, next, chain, l) && |keys| == |next| && 1 <= |next| && l < |next[0]|
    requires 0 < node < |keys| && Splits(keys, chain, keys[node], pos)
    ensures node !in chain && Pred(chain, pos) < |next| && l < |next[Pred(chain, pos)]| && Pred(chain, pos) != node
  {
    NotInChain(keys, chain, node, pos);
    hide Before;
    if 0 < pos { assert l < Height(next, chain[pos - 1]); }
  }

  /** Writing a link of a node that is not linked at that level changes nothing a reader sees. */
  lemma UnlinkedWrite(keys: seq<Entry>, next: seq<seq<nat>>, next': seq<seq<nat>>, chain: seq<nat>, m: nat, l: nat, node: nat, pos: nat)
    requires LevelOk(keys, next, chain, m) && node != 0 && (m == l ==> node !in chain)
    requires forall n, k :: 0 <= n && 0 <= k && !(n == node && k == l) ==> Link(next', n, k) == Link(next, n, k)
    requires forall n :: 0 <= n ==> Height(next', n) == Height(next, n)
    ensures LevelOk(keys, next', chain, m)
  {
    hide Before;
    hide Link;
    hide Height;
  }

  lemma BothWrites(next0: seq<seq<nat>>, next1: seq<seq<nat>>, next2: seq<seq<nat>>, l: nat, prev: nat, node: nat)
    requires prev != node
    requires forall m, k :: 0 <= m && 0 <= k ==>
               Link(next1, m, k) == if m == node && k == l then Link(next0, prev, l) else Link(next0, m, k)
    requires forall m, k :: 0 <= m && 0 <= k ==> Link(next2, m, k) == if m == prev && k == l then node else Link(next1, m, k)
    requires forall m :: 0 <= m ==> Height(next1, m) == Height(next0, m) && Height(next2, m) == Height(next1, m)
    ensures Relinked(next0, next2, l, prev, node)
  {
    hide Link;
    hide Height;
  }

  lemma NestedStill(chains: seq<seq<nat>>, l: nat, pos: nat, node: nat)
    requires |chains| == MAX_HEIGHT && l < MAX_HEIGHT && pos <= |chains[l]|
    requires forall i, j :: 0 <= i < j < MAX_HEIGHT ==> Within(chains[j], chains[i])
    requires forall k :: 0 <= k < l ==> node in chains[k]
    ensures var chains' := chains[l := Inserted(chains[l], pos, node)];
      && (forall i, j :: 0 <= i < j < MAX_HEIGHT ==> Within(chains'[j], chains'[i]))
      && (forall i :: 0 <= i < MAX_HEIGHT ==> Within(chains[i], chains'[i]))
  {
    var c := Inserted(chains[l], pos, node);
    forall n ensures n in c <==> n in chains[l] || n == node {
      if n in chains[l] {
        var i :| 0 <= i < |chains[l]| && chains[l][i] == n;
        assert c[if i < pos then i else i + 1] == n;
      }
      if n == node { assert c[pos] == n; }
    }
  }

  /** What a finished search returns: the first linked node not below the target, or null. */
  ghost predicate IsLeast(keys: seq<Entry>, chain: seq<nat>, found: nat, target: Entry) {
    if found == 0 then forall i :: 0 <= i < |chain| ==> chain[i] < |keys| && Before(keys[chain[i]], target)
    else exists i :: IsLeastAt(keys, chain, i, found, target)
  }

  ghost predicate IsLeastAt(keys: seq<Entry>, chain: seq<nat>, i: nat, found: nat, target: Entry) {
    && i < |chain| && chain[i] == found && found < |keys| && !Before(keys[found], target)
    && forall j :: 0 <= j < i ==> chain[j] < |keys| && Before(keys[chain[j]], target)
  }

  /** `p` is where the target belongs, and `node` is the one before it. */
  ghost predicate IsSplit(keys: seq<Entry>, chain: seq<nat>, target: Entry, p: nat, node: nat) {
    && p <= |chain| && Pred(chain, p) == node
    && (forall i :: 0 <= i < p ==> chain[i] < |keys| && Before(keys[chain[i]], target))
    && (forall i :: p <= i < |chain| ==> chain[i] < |keys| && !Before(keys[chain[i]], target))
  }

  ghost predicate HasSplit(keys: seq<Entry>, chain: seq<nat>, target: Entry, node: nat) {
    exists p :: IsSplit(keys, chain, target, p, node)
  }

  /** The position right after a node, the head's being the first. */
  ghost function After(chain: seq<nat>, node: nat): nat {
    if exists i :: 0 <= i < |chain| && chain[i] == node then var i :| 0 <= i < |chain| && chain[i] == node; i + 1 else 0
  }

  lemma AfterBound(chain: seq<nat>, node: nat)
    ensures After(chain, node) <= |chain|
  {}

  lemma AfterIsNext(keys: seq<Entry>, chain: seq<nat>, node: nat)
    requires ChainOk(keys, chain) && (node == 0 || node in chain)
    ensures After(chain, node) <= |chain| && Pred(chain, After(chain, node)) == node
    ensures forall i :: 0 <= i < |chain| ==> After(chain, chain[i]) == i + 1
  {
    UniqueSpot(keys, chain);
    hide Before;
    forall i | 0 <= i < |chain| ensures After(chain, chain[i]) == i + 1 {}
  }

  lemma StepFacts(keys: seq<Entry>, next: seq<seq<nat>>, chain: seq<nat>, node: nat, l: nat, target: Entry)
    requires LevelOk(keys, next, chain, l) && (node == 0 || (node in chain && node < |keys| && Before(keys[node], target)))
    ensures var succ := Link(next, node, l);
      && (succ != 0 ==> succ < |keys| && succ in chain)
      && (if succ != 0 && Before(keys[succ], target) then After(chain, node) < After(chain, succ)
          else HasSplit(keys, chain, target, node) && IsLeast(keys, chain, succ, target))
  {
    hide Before;
    hide Link;
    hide After;
    hide IsLeast;
    hide IsSplit;
    var p, succ := After(chain, node), Link(next, node, l);
    AfterIsNext(keys, chain, node);
    assert succ == if p < |chain| then chain[p] else 0;
    if succ != 0 && Before(keys[succ], target) {
      assert After(chain, chain[p]) == p + 1;
    } else {
      StopsAt(keys, chain, node, p, target);
    }
  }

  /** Where the search leaves a level the target belongs. */
  lemma StopsAt(keys: seq<Entry>, chain: seq<nat>, node: nat, p: nat, target: Entry)
    requires ChainOk(keys, chain) && p <= |chain| && Pred(chain, p) == node && (0 < p ==> Before(keys[chain[p - 1]], target))
    requires p < |chain| ==> !Before(keys[chain[p]], target)
    ensures IsSplit(keys, chain, target, p, node) && IsLeast(keys, chain, if p < |chain| then chain[p] else 0, target)
  {
    if 0 < p { FirstNotBelow(keys, chain, target, p - 1); }
    if p < |chain| { AllNotBelow(keys, chain, target, p); }
    hide Before;
    if p < |chain| { assert IsLeastAt(keys, chain, p, chain[p], target); }
  }

  lemma UniqueSpot(keys: seq<Entry>, chain: seq<nat>)
    requires ChainOk(keys, chain)
    ensures forall i, j :: 0 <= i < |chain| && 0 <= j < |chain| && chain[i] == chain[j] ==> i == j
  {
    BeforeIsStrictOrder();
  }

  lemma AllNotBelow(keys: seq<Entry>, chain: seq<nat>, target: Entry, p: nat)
    requires ChainOk(keys, chain) && p < |chain| && !Before(keys[chain[p]], target)
    ensures forall i :: p <= i < |chain| ==> !Before(keys[chain[i]], target)
  {
    BeforeIsStrictOrder();
    LessIsStrictTotalOrder();
  }

  lemma FirstNotBelow(keys: seq<Entry>, chain: seq<nat>, target: Entry, i: nat)
    requires ChainOk(keys, chain) && i < |chain| && Before(keys[chain[i]], target)
    ensures forall j :: 0 <= j <= i ==> Before(keys[chain[j]], target)
  {
    BeforeIsStrictOrder();
  }

  ghost function KeysOf(keys: seq<Entry>, chain: seq<nat>): (es: seq<Entry>)
    requires forall i :: 0 <= i < |chain| ==> chain[i] < |keys|
    ensures |es| == |chain| && forall i :: 0 <= i < |chain| ==> es[i] == keys[chain[i]]
  {
    seq(|chain|, i requires 0 <= i < |chain| => keys[chain[i]])
  }

  // ---------- inserting ----------

  lemma LevelSorted(keys: seq<Entry>, next: seq<seq<nat>>, chain: seq<nat>)
    requires LevelOk(keys, next, chain, 0)
    ensures ChainOk(keys, chain) && Sorted(KeysOf(keys, chain))
  {
    hide Before;
  }

  lemma ChainLink(keys: seq<Entry>, next: seq<seq<nat>>, chain: seq<nat>, i: nat)
    requires LevelOk(keys, next, chain, 0) && i <= |chain|
    ensures Link(next, Pred(chain, i), 0) == if i < |chain| then chain[i] else 0
    ensures i < |chain| ==> 0 < chain[i] < |keys|
  {
    hide Before;
  }

  lemma LevelChain(keys: seq<Entry>, next: seq<seq<nat>>, chain: seq<nat>, l: nat)
    requires LevelOk(keys, next, chain, l)
    ensures ChainOk(keys, chain)
  {}

  lemma TotalOrder(a: Entry, b: Entry)
    ensures Before(a, b) || KeyOf(a) == KeyOf(b) || Before(b, a)
  {
    LessTotal(a.key, b.key);
  }

  /** Since the key is new, what does not come before it comes after it. */
  lemma AboveSplit(keys: seq<Entry>, bottom: seq<nat>, chain: seq<nat>, e: Entry, p: nat, node: nat)
    requires forall i :: 0 <= i < |bottom| ==> bottom[i] < |keys|
    requires chain == bottom || Within(chain, bottom)
    requires forall f :: f in KeysOf(keys, bottom) ==> KeyOf(f) != KeyOf(e)
    requires IsSplit(keys, chain, e, p, node)
    ensures Splits(keys, chain, e, p)
  {
    hide Before;
    forall i | p <= i < |chain| ensures Before(e, keys[chain[i]]) {
      assert chain[i] in chain;
      var j :| 0 <= j < |bottom| && bottom[j] == chain[i];
      assert KeysOf(keys, bottom)[j] == keys[chain[i]];
      TotalOrder(e, keys[chain[i]]);
    }
  }

  lemma SplitStays(keys: seq<Entry>, e: Entry, chain: seq<nat>, p: nat)
    requires Splits(keys, chain, e, p)
    ensures Splits(keys + [e], chain, e, p) && (keys + [e])[|keys|] == e
  {
    hide Before;
  }

  /** Linking a node in at its place is inserting its entry. */
  lemma ContentsAfter(keys: seq<Entry>, e: Entry, chain: seq<nat>, pos: nat)
    requires Splits(keys, chain, e, pos)
    ensures forall i :: 0 <= i < |chain| + 1 ==> Inserted(chain, pos, |keys|)[i] < |keys| + 1
    ensures KeysOf(keys + [e], Inserted(chain, pos, |keys|)) == Insert(KeysOf(keys, chain), e)
  {
    hide Before;
    var es := KeysOf(keys, chain);
    InsertAtSplit(es, e, pos);
    hide Insert;
    assert KeysOf(keys + [e], Inserted(chain, pos, |keys|)) == es[..pos] + [e] + es[pos..];
  }

  lemma {:induction false} InsertAtSplit(es: seq<Entry>, e: Entry, pos: nat)
    requires pos <= |es| && (forall i :: 0 <= i < pos ==> Before(es[i], e)) && (forall i :: pos <= i < |es| ==> Before(e, es[i]))
    ensures Insert(es, e) == es[..pos] + [e] + es[pos..]
  {
    if es != [] {
      if pos == 0 {
        assert Before(e, es[0]);
      } else {
        BeforeIsStrictOrder();
        assert !Before(e, es[0]);
        InsertAtSplit(es[1..], e, pos - 1);
        assert es[..pos] == [es[0]] + es[1..][..pos - 1] && es[pos..] == es[1..][pos - 1..];
      }
    } else {
      assert es[..pos] + [e] + es[pos..] == [e];
    }
  }

  lemma LeastIsLookup(keys: seq<Entry>, chain: seq<nat>, found: nat, k: Bytes, s: nat)
    requires ChainOk(keys, chain) && IsLeast(keys, chain, found, Entry(k, s, Value, []))
    ensures found < |keys| || found == 0
    ensures Lookup(KeysOf(keys, chain), k, s) == if found == 0 || keys[found].key != k then None else Some(keys[found])
  {
    var target := Entry(k, s, Value, []);
    assert forall f: Entry :: Before(f, target) <==> !AtOrAfter(f, k, s) by { LessIsStrictTotalOrder(); }
    hide Before;
    hide AtOrAfter;
    hide Less;
    var es := KeysOf(keys, chain);
    var q := SeekIndex(es, k, s);
    if found == 0 {
      assert forall i :: 0 <= i < |es| ==> Before(es[i], target);
    } else {
      var i: nat :| IsLeastAt(keys, chain, i, found, target);
      assert !Before(es[i], target);
      assert forall j :: 0 <= j < i ==> Before(es[j], target);
      assert q == i;
    }
  }
}
