// What a table means, and what its two parts always satisfy.

module TableState {
  import opened TableChains
  import opened TableSizes

  predicate InArrayPart(arr: seq<Value>, k: Key) {
    IntIn(k, 0, |arr|)
  }

  // The value a table gives to a key.
  function ContentOf(arr: seq<Value>, node: seq<Node>, k: Key): Value {
    if InArrayPart(arr, k) then arr[k.n - 1]
    else var p := IndexOf(node, k); if p == NULL then VNil else node[p].val
  }

  // What belongs to the array part has no value in the hash part.
  ghost predicate Apart(arr: seq<Value>, node: seq<Node>) {
    forall p :: 0 <= p < |node| ==> (InArrayPart(arr, node[p].key) ==> node[p].val.VNil?) && !node[p].key.KNaN?
  }

  const DUMMY := [Node(KNil, VNil, NULL)]

  ghost predicate TwoTo(n: nat) {
    exists l: nat :: l <= MAXBITS && n == Pow2(l)
  }

  // Every node at lastfree or above it has a key.
  ghost predicate TakenAbove(node: seq<Node>, lastfree: int) {
    lastfree <= |node| && forall p :: 0 <= p < |node| && lastfree <= p ==> !node[p].key.KNil?
  }

  ghost predicate Good(hash: Key -> nat, arr: seq<Value>, node: seq<Node>, dummy: bool, lastfree: int,
      rank: seq<real>) {
    && Chained(hash, node, rank) && Apart(arr, node) && TwoTo(|node|) && |arr| <= MAXASIZE
    && (if dummy then node == DUMMY && lastfree <= 0 else TakenAbove(node, lastfree))
  }

  // Nodes with a key.
  function Used(node: seq<Node>, from: nat): (n: nat)
    ensures n <= if from < |node| then |node| - from else 0
    decreases |node| - from
  {
    if from >= |node| then 0 else Used(node, from + 1) + (if node[from].key.KNil? then 0 else 1)
  }

  lemma {:induction false} UsedAll(node: seq<Node>, from: nat)
    requires from <= |node| && forall p :: from <= p < |node| ==> !node[p].key.KNil?
    ensures Used(node, from) == |node| - from
    decreases |node| - from
  {
    if from < |node| { UsedAll(node, from + 1); }
  }

  lemma {:induction false} UsedNotAll(node: seq<Node>, from: nat, p: nat)
    requires from <= p < |node| && node[p].key.KNil?
    ensures Used(node, from) < |node| - from
    decreases |node| - from
  {
    if from < p { UsedNotAll(node, from + 1, p); }
  }

  lemma {:induction false} UsedSame(node: seq<Node>, node': seq<Node>, from: nat)
    requires |node| == |node'| && forall p :: from <= p < |node| ==> node[p].key.KNil? == node'[p].key.KNil?
    ensures Used(node, from) == Used(node', from)
    decreases |node| - from
  {
    if from < |node| { UsedSame(node, node', from + 1); }
  }

  // One more key, in a node that had none.
  lemma {:induction false} UsedMore(node: seq<Node>, node': seq<Node>, from: nat, n: nat)
    requires |node| == |node'| && n < |node| && node[n].key.KNil? && !node'[n].key.KNil?
    requires forall p :: 0 <= p < |node| && p != n ==> node[p].key.KNil? == node'[p].key.KNil?
    ensures Used(node', from) == Used(node, from) + if from <= n then 1 else 0
    decreases |node| - from
  {
    if from < |node| { UsedMore(node, node', from + 1, n); }
  }

  lemma {:induction false} UsedNone(node: seq<Node>, from: nat)
    requires forall p :: 0 <= p < |node| ==> node[p].key.KNil?
    ensures Used(node, from) == 0
    decreases |node| - from
  {
    if from < |node| { UsedNone(node, from + 1); }
  }

  lemma {:induction false} EntriesUsed(node: seq<Node>, from: nat)
    requires FreeNodes(node)
    ensures Entries(node, from) <= Used(node, from)
    decreases |node| - from
  {
    if from < |node| {
      EntriesUsed(node, from + 1);
      assert node[from].key.KNil? ==> node[from].val.VNil?;
    }
  }

  // ----- a measure for walking along a chain -----

  function Above(rank: seq<real>, r: real): nat {
    if rank == [] then 0 else Above(rank[1..], r) + (if rank[0] > r then 1 else 0)
  }

  lemma {:induction false} AboveLess(rank: seq<real>, r: real, s: real)
    requires r <= s
    ensures Above(rank, s) <= Above(rank, r)
    ensures r < s && s in rank ==> Above(rank, s) < Above(rank, r)
    decreases rank
  {
    if rank != [] { AboveLess(rank[1..], r, s); }
  }

  lemma LinkGoesUp(node: seq<Node>, rank: seq<real>, p: int)
    requires Links(node, rank) && 0 <= p < |node| && node[p].next != NULL
    ensures 0 <= node[p].next < |node| && |rank| == |node|
    ensures Above(rank, rank[node[p].next]) < Above(rank, rank[p])
  {
    var q := node[p].next;
    AboveLess(rank, rank[p], rank[q]);
  }

  // ----- slots -----

  // Nowhere is what a search gives when there is no slot for the key.
  datatype Slot = Nowhere | Elem(i: nat) | Entry(p: nat)

  predicate SlotOf(arr: seq<Value>, node: seq<Node>, k: Key, s: Slot) {
    match s
    case Nowhere => false
    case Elem(i) => i < |arr| && k == KInt(i + 1)
    case Entry(p) => p < |node| && node[p].key == k && !InArrayPart(arr, k) && !k.KNil?
  }

  function At(arr: seq<Value>, node: seq<Node>, s: Slot): Value {
    match s
    case Nowhere => VNil
    case Elem(i) => if i < |arr| then arr[i] else VNil
    case Entry(p) => if p < |node| then node[p].val else VNil
  }

  lemma SlotHolds(arr: seq<Value>, node: seq<Node>, k: Key, s: Slot)
    requires KeysOnce(node) && SlotOf(arr, node, k, s)
    ensures ContentOf(arr, node, k) == At(arr, node, s)
  {
    if s.Entry? { IndexIs(node, k, s.p); }
  }

  lemma ChainsForValues(hash: Key -> nat, node: seq<Node>, rank: seq<real>, p: nat, v: Value)
    requires Chained(hash, node, rank) && p < |node| && !node[p].key.KNil?
    ensures Chained(hash, node[p := node[p].(val := v)], rank)
  {
    var node' := node[p := node[p].(val := v)];
    assert forall i :: 0 <= i < |node| ==> node'[i].next == node[i].next && node'[i].key == node[i].key;
    forall q | 0 <= q < |node'| && !node'[q].key.KNil? ensures InPlace(hash, node', q) {
      assert InPlace(hash, node, q);
      var m := MainPosition(hash, node[q].key, |node|);
      var k: nat :| Leads(node, m, q, k);
      SameLeads(node, node', m, q, k);
    }
  }

  lemma {:induction false} IndexForValues(node: seq<Node>, node': seq<Node>, k: Key)
    requires |node| == |node'| && forall p :: 0 <= p < |node| ==> node[p].key == node'[p].key
    ensures IndexOf(node, k) == IndexOf(node', k)
    decreases |node|
  {
    if node != [] { IndexForValues(node[..|node| - 1], node'[..|node'| - 1], k); }
  }

  lemma StoreElem(arr: seq<Value>, node: seq<Node>, i: nat, v: Value, q: Key)
    requires i < |arr|
    ensures ContentOf(arr[i := v], node, q) == if q == KInt(i + 1) then v else ContentOf(arr, node, q)
  {
  }

  lemma StoreEntry(arr: seq<Value>, node: seq<Node>, p: nat, v: Value, q: Key)
    requires KeysOnce(node) && p < |node| && !node[p].key.KNil? && !InArrayPart(arr, node[p].key)
    ensures ContentOf(arr, node[p := node[p].(val := v)], q) == if q == node[p].key then v else ContentOf(arr, node, q)
  {
    var node' := node[p := node[p].(val := v)];
    IndexForValues(node, node', q);
    IndexIs(node, node[p].key, p);
  }

  // ----- a new key leaves the content alone -----

  lemma OneMoreKey(arr: seq<Value>, node: seq<Node>, node': seq<Node>, n: nat, q: Key)
    requires KeysOnce(node) && KeysOnce(node') && n < |node'| == |node| && node[n].val.VNil? && node'[n].val.VNil?
    requires FreeNodes(node) && FreeNodes(node')
    requires forall p :: 0 <= p < |node| && p != n ==> node'[p].key == node[p].key && node'[p].val == node[p].val
    ensures ContentOf(arr, node', q) == ContentOf(arr, node, q)
  {
    var i, j := IndexOf(node, q), IndexOf(node', q);
    if q.KNil? {
      assert i != NULL ==> node[i].val.VNil?;
      assert j != NULL ==> node'[j].val.VNil?;
    } else {
      if i != NULL && i != n { IndexIs(node', q, i); }
      if j != NULL && j != n { IndexIs(node, q, j); }
    }
  }

  // The node that was at mp is now at n, and mp has a new key without value.
  lemma MovedKey(arr: seq<Value>, node: seq<Node>, node': seq<Node>, mp: nat, n: nat, q: Key)
    requires KeysOnce(node) && KeysOnce(node') && FreeNodes(node) && FreeNodes(node')
    requires mp < |node| == |node'| && n < |node| && mp != n && node[n].key.KNil? && !node[mp].key.KNil?
    requires node'[n].key == node[mp].key && node'[n].val == node[mp].val && node'[mp].val.VNil?
    requires forall p :: 0 <= p < |node| && node[p].key == node'[mp].key ==> node[p].key.KNil?
    requires forall p :: 0 <= p < |node| && p != n && p != mp ==>
               node'[p].key == node[p].key && node'[p].val == node[p].val
    ensures ContentOf(arr, node', q) == ContentOf(arr, node, q)
  {
    var i, j := IndexOf(node, q), IndexOf(node', q);
    assert node[n].val.VNil?;
    if q.KNil? {
      assert i != NULL ==> node[i].val.VNil?;
      assert j != NULL ==> node'[j].val.VNil?;
    } else if i == NULL {
      assert j != NULL ==> j == mp;
    } else {
      IndexIs(node', q, if i == mp then n else i);
    }
  }

  // ----- the three ways newkey places a key -----

  ghost predicate Fresh(arr: seq<Value>, node: seq<Node>, key: Key) {
    !key.KNil? && !key.KNaN? && !InArrayPart(arr, key) && forall q :: 0 <= q < |node| ==> node[q].key != key
  }

  // What a placement does: the content stays, the key has a slot, at most one node more is used.
  ghost predicate Placed(arr: seq<Value>, node: seq<Node>, node': seq<Node>, key: Key, p: int) {
    && |node'| == |node| && 0 <= p < |node'| && node'[p].key == key && node'[p].val == VNil
    && Used(node', 0) <= Used(node, 0) + 1
    && forall q :: ContentOf(arr, node', q) == ContentOf(arr, node, q)
  }

  lemma PlaceOver(hash: Key -> nat, arr: seq<Value>, node: seq<Node>, lastfree: int, rank: seq<real>, mp: int, key: Key)
    requires Good(hash, arr, node, false, lastfree, rank) && Fresh(arr, node, key)
    requires mp == MainPosition(hash, key, |node|)
    requires node[mp].val.VNil?
    ensures var node' := node[mp := node[mp].(key := key)];
      Good(hash, arr, node', false, lastfree, rank) && Placed(arr, node, node', key, mp)
  {
    hide InPlace, Pow2;
    var node' := node[mp := node[mp].(key := key)];
    OverwriteKeeps(hash, node, rank, mp, key);
    forall q ensures ContentOf(arr, node', q) == ContentOf(arr, node, q) {
      OneMoreKey(arr, node, node', mp, q);
    }
    if node[mp].key.KNil? { UsedMore(node, node', 0, mp); } else { UsedSame(node, node', 0); }
  }

  lemma PlaceBehind(hash: Key -> nat, arr: seq<Value>, node: seq<Node>, rank: seq<real>, mp: int, n: int, key: Key)
    requires Good(hash, arr, node, false, n + 1, rank) && Fresh(arr, node, key)
    requires 0 <= n < |node| && node[n].key.KNil? && 0 <= mp < |node| && !node[mp].val.VNil?
    requires mp == MainPosition(hash, key, |node|) == MainPosition(hash, node[mp].key, |node|)
    ensures var node' := Inserted(node, mp, n, key);
      Good(hash, arr, node', false, n, rank[n := Between(node, rank, mp)]) && Placed(arr, node, node', key, n)
  {
    hide InPlace, Pow2;
    var node' := Inserted(node, mp, n, key);
    InsertKeeps(hash, node, rank, mp, n, key);
    forall q ensures ContentOf(arr, node', q) == ContentOf(arr, node, q) {
      OneMoreKey(arr, node, node', n, q);
    }
    UsedMore(node, node', 0, n);
  }

  lemma PlaceInstead(hash: Key -> nat, arr: seq<Value>, node: seq<Node>, rank: seq<real>, mp: int, n: int, prev: int,
      key: Key)
    requires Good(hash, arr, node, false, n + 1, rank) && Fresh(arr, node, key)
    requires 0 <= n < |node| && node[n].key.KNil? && 0 <= mp < |node| && !node[mp].val.VNil?
    requires mp == MainPosition(hash, key, |node|) != MainPosition(hash, node[mp].key, |node|)
    requires 0 <= prev < |node| && node[prev].next == mp
    ensures var node' := Displaced(node, mp, n, prev, key);
      Good(hash, arr, node', false, n, rank[n := rank[mp]]) && Placed(arr, node, node', key, mp)
  {
    hide InPlace, Pow2;
    var node' := Displaced(node, mp, n, prev, key);
    assert prev != mp && prev != n && mp != n;
    DisplaceKeeps(hash, node, rank, mp, n, prev, key);
    forall q ensures ContentOf(arr, node', q) == ContentOf(arr, node, q) {
      MovedKey(arr, node, node', mp, n, q);
    }
    UsedMore(node, node', 0, n);
  }

  // ----- the order of a traversal -----

  predicate SameKeys(node: seq<Node>, node': seq<Node>) {
    |node'| == |node| && forall p :: 0 <= p < |node| ==> node'[p].key == node[p].key
  }

  predicate HasSlot(arr: seq<Value>, node: seq<Node>, k: Key) {
    !k.KNil? && !k.KNaN? && (InArrayPart(arr, k) || IndexOf(node, k) != NULL)
  }

  // Elements first, then nodes; nil is before all.
  function Position(arr: seq<Value>, node: seq<Node>, k: Key): (i: int)
    ensures -1 <= i < |arr| + |node|
  {
    if k.KNil? then -1
    else if InArrayPart(arr, k) then k.n - 1
    else var p := IndexOf(node, k); if p == NULL then -1 else |arr| + p
  }

  function SlotKey(arr: seq<Value>, node: seq<Node>, i: int): Key
    requires 0 <= i < |arr| + |node|
  {
    if i < |arr| then KInt(i + 1) else node[i - |arr|].key
  }

  function SlotValue(arr: seq<Value>, node: seq<Node>, i: int): Value
    requires 0 <= i < |arr| + |node|
  {
    if i < |arr| then arr[i] else node[i - |arr|].val
  }

  // A value in a slot is the content of the slot's key, and the key's position is that slot.
  lemma LiveSlot(hash: Key -> nat, arr: seq<Value>, node: seq<Node>, dummy: bool, lastfree: int, rank: seq<real>,
      i: int)
    requires Good(hash, arr, node, dummy, lastfree, rank) && 0 <= i < |arr| + |node| && SlotValue(arr, node, i) != VNil
    ensures var k := SlotKey(arr, node, i);
      ContentOf(arr, node, k) == SlotValue(arr, node, i) && Position(arr, node, k) == i && HasSlot(arr, node, k)
  {
    hide InPlace, TwoTo, Links, TakenAbove;
    if i >= |arr| { IndexIs(node, node[i - |arr|].key, i - |arr|); }
  }

  lemma PositionOfContent(hash: Key -> nat, arr: seq<Value>, node: seq<Node>, dummy: bool, lastfree: int,
      rank: seq<real>, q: Key)
    requires Good(hash, arr, node, dummy, lastfree, rank) && ContentOf(arr, node, q) != VNil
    ensures var i := Position(arr, node, q);
      0 <= i < |arr| + |node| && SlotValue(arr, node, i) == ContentOf(arr, node, q) && SlotKey(arr, node, i) == q
    ensures HasSlot(arr, node, q)
  {
    hide InPlace, TwoTo, Links, TakenAbove;
    var p := IndexOf(node, q);
    assert p != NULL ==> node[p].val == VNil || !node[p].key.KNil?;
  }

  // With no value between lo and i, what comes after lo is not before i.
  lemma NothingBetween(hash: Key -> nat, arr: seq<Value>, node: seq<Node>, dummy: bool, lastfree: int, rank: seq<real>,
      lo: int, i: int)
    requires Good(hash, arr, node, dummy, lastfree, rank)
    requires forall j :: 0 <= j < |arr| + |node| && lo < j < i ==> SlotValue(arr, node, j) == VNil
    ensures forall q :: ContentOf(arr, node, q) != VNil && Position(arr, node, q) > lo ==> Position(arr, node, q) >= i
  {
    hide Good, ContentOf, Position;
    forall q | ContentOf(arr, node, q) != VNil && Position(arr, node, q) > lo ensures Position(arr, node, q) >= i {
      PositionOfContent(hash, arr, node, dummy, lastfree, rank, q);
    }
  }

  lemma SamePositions(arr: seq<Value>, arr': seq<Value>, node: seq<Node>, node': seq<Node>)
    requires |arr| == |arr'| && SameKeys(node, node')
    ensures forall q :: Position(arr', node', q) == Position(arr, node, q)
    ensures forall q :: HasSlot(arr', node', q) == HasSlot(arr, node, q)
  {
    forall q ensures IndexOf(node', q) == IndexOf(node, q) {
      IndexForValues(node, node', q);
    }
  }

  // ----- no more consecutive integer keys than slots -----

  lemma {:induction false} InArrayAtMost(arr: seq<Value>, hi: nat)
    ensures InArray(arr, 0, hi) <= if hi <= |arr| then hi else |arr|
    decreases hi
  {
    if hi > 0 { InArrayAtMost(arr, hi - 1); }
  }

  lemma {:induction false} InNodesHas(node: seq<Node>, from: nat, p: nat, m: int)
    requires from <= p < |node| && node[p].val != VNil && node[p].key == KInt(m)
    ensures InNodes(node, from, m - 1, m) >= 1
    decreases |node| - from
  {
    if from < p { InNodesHas(node, from + 1, p, m); }
  }

  lemma {:induction false} CountPresent(arr: seq<Value>, node: seq<Node>, m: nat)
    requires forall i :: 1 <= i <= m ==> ContentOf(arr, node, KInt(i)) != VNil
    ensures Candidates(arr, node, KNil, 0, m) >= m
    decreases m
  {
    if m > 0 {
      CountPresent(arr, node, m - 1);
      CandidatesSplit(arr, node, KNil, 0, m - 1, m);
      assert ContentOf(arr, node, KInt(m)) != VNil;
      if m > |arr| { InNodesHas(node, 0, IndexOf(node, KInt(m)), m); }
    }
  }

  lemma NoMoreThanSlots(hash: Key -> nat, arr: seq<Value>, node: seq<Node>, dummy: bool, lastfree: int, rank: seq<real>,
      m: nat)
    requires Good(hash, arr, node, dummy, lastfree, rank)
    requires forall i :: 1 <= i <= m ==> ContentOf(arr, node, KInt(i)) != VNil
    ensures m <= |arr| + |node| <= 2 * MAXASIZE
  {
    hide InPlace, TakenAbove;
    CountPresent(arr, node, m);
    InArrayAtMost(arr, m);
    InNodesEntries(node, 0, 0, m);
    EntriesUsed(node, 0);
    PowMax();
    var l: nat :| l <= MAXBITS && |node| == Pow2(l);
    PowUp(l, MAXBITS);
  }

  lemma DummyIsEmpty(hash: Key -> nat, arr: seq<Value>, node: seq<Node>, lastfree: int, rank: seq<real>)
    requires Good(hash, arr, node, true, lastfree, rank)
    ensures ContentOf(arr, node, KInt(|arr| + 1)) == VNil
  {
  }
}
