// Tables: an array part and a hash part that change size together.

module LuaTables {
  import opened TableChains
  import opened TableSizes
  import opened TableState

  datatype Error = NoError | IndexIsNil | IndexIsNaN | TableOverflow

  // Values that move to the new hash part when the array part gets n slots.
  function Outside(node: seq<Node>, from: nat, n: nat): nat
    decreases |node| - from
  {
    if from >= |node| then 0
    else Outside(node, from + 1, n) + (if node[from].val != VNil && !IntIn(node[from].key, 0, n) then 1 else 0)
  }

  function Needed(arr: seq<Value>, node: seq<Node>, n: nat): nat {
    InArray(arr, n, |arr|) + Outside(node, 0, n)
  }

  lemma {:induction false} OutsideIs(node: seq<Node>, from: nat, n: nat)
    ensures Outside(node, from, n) + InNodes(node, from, 0, n) == Entries(node, from)
    decreases |node| - from
  {
    if from < |node| { OutsideIs(node, from + 1, n); }
  }

  // The size rehash asks for has a place for everything and for the key to come.
  lemma NeededIs(arr: seq<Value>, node: seq<Node>, ek: Key, n: nat)
    ensures InArray(arr, 0, |arr|) + Entries(node, 0) + 1 - Candidates(arr, node, ek, 0, n)
         == Needed(arr, node, n) + if IntIn(ek, 0, n) then 0 else 1
  {
    OutsideIs(node, 0, n);
    if n <= |arr| {
      InArraySplit(arr, 0, n, |arr|);
    } else {
      InArraySplit(arr, 0, |arr|, n);
      NoArrayAbove(arr, |arr|, n);
    }
  }

  function Nils(n: int): (s: seq<Value>)
    ensures |s| == if n > 0 then n else 0
    ensures forall i :: 0 <= i < |s| ==> s[i] == VNil
  {
    if n <= 0 then [] else seq(n, _ => VNil)
  }

  const FREE := Node(KNil, VNil, NULL)

  class Table {
    const hash: Key -> nat
    var arr: seq<Value>
    var node: seq<Node>
    var dummy: bool
    var lastfree: int
    ghost var rank: seq<real>

    ghost predicate Valid()
      reads this
    {
      Good(hash, arr, node, dummy, lastfree, rank)
    }

    ghost function Content(k: Key): Value
      reads this
    {
      ContentOf(arr, node, k)
    }

    // A node without a key is left.
    predicate Room()
      reads this
    {
      !dummy && Used(node, 0) < |node|
    }

    // The key has no slot, and none can be made without a rehash.
    ghost predicate Crowded(k: Key)
      reads this
    {
      node != [] && Fresh(arr, node, k) && !Room() && (dummy || node[MainPosition(hash, k, |node|)].val != VNil)
    }

    // An empty table; both parts are empty.
    constructor (hash: Key -> nat)
      ensures Valid() && this.hash == hash && arr == [] && node == DUMMY
      ensures forall q :: Content(q) == VNil
    {
      this.hash := hash;
      arr, node, dummy, lastfree, rank := [], DUMMY, true, 0, [0.0];
      new;
      FirstSlice();
      DummyIsGood(hash);
    }

    // luaH_new
    static method New(hash: Key -> nat, narray: nat, nhash: nat) returns (t: Table, err: Error)
      requires narray <= MAXASIZE
      ensures fresh(t) && err == (if nhash <= MAXASIZE then NoError else TableOverflow)
      ensures err == NoError ==> t.Valid() && |t.arr| == narray && nhash <= |t.node| && forall q :: t.Content(q) == VNil
    {
      hide Good;
      t := new Table(hash);
      t.SetArrayVector(narray);
      err := t.SetNodeVector(nhash);
      assert forall i :: 0 <= i < |t.arr| ==> t.arr[i] == VNil;
    }

    // ----- searching -----

    // The chain from the main position, to the node that has the key or to the end.
    method FindNode(k: Key) returns (p: int)
      requires Valid() && !k.KNil?
      ensures p == if k.KNaN? then NULL else IndexOf(node, k)
    {
      hide Good, Links, FreeNodes, Apart, IndexOf, TwoTo, TakenAbove, InArrayPart;
      ChainedParts(hash, arr, node, dummy, lastfree, rank);
      p := MainPosition(hash, k, |node|);
      ghost var q := IndexOf(node, k);
      StartOfChain(hash, node, rank, k);
      while p != NULL && !(node[p].key == k && !k.KNaN?)  // luaO_rawequalObj: NaN is not equal to itself
        invariant p == NULL || 0 <= p < |node|
        invariant q != NULL ==> p != NULL && OnChain(node, p, q)
        decreases if p == NULL then 0 else 1 + Above(rank, rank[p])
      {
        if q != NULL && p != q { ChainStep(node, p, q); }
        if node[p].next != NULL { LinkGoesUp(node, rank, p); }
        NaNNowhere(arr, node, k);
        p := node[p].next;
      }
      NaNNowhere(arr, node, k);
      if p != NULL { IndexIs(node, k, p); }
    }

    // luaH_get with luaH_getnum and luaH_getstr: the slot of a key
    method Find(k: Key) returns (s: Slot)
      requires Valid()
      ensures s == Nowhere ==> !InArrayPart(arr, k) && (k.KNil? || IndexOf(node, k) == NULL) && Content(k) == VNil
      ensures s != Nowhere ==> SlotOf(arr, node, k, s) && !k.KNil? && !k.KNaN?
    {
      if k.KNil? {
        NilNowhere(hash, node, rank);
        return Nowhere;
      }
      if k.KInt? && 1 <= k.n <= |arr| {
        return Elem(k.n - 1);
      }
      var p := FindNode(k);
      NaNNowhere(arr, node, k);
      s := if p == NULL then Nowhere else Entry(p);
    }

    method Get(k: Key) returns (v: Value)
      requires Valid()
      ensures v == Content(k)
    {
      var s := Find(k);
      v := At(arr, node, s);
      if s != Nowhere { SlotHolds(arr, node, k, s); }
    }

    // ----- storing -----

    method Store(s: Slot, v: Value, ghost k: Key)
      requires Valid() && SlotOf(arr, node, k, s)
      modifies this
      ensures Valid() && forall q :: Content(q) == if q == k then v else old(Content(q))
      ensures |arr| == old(|arr|) && |node| == old(|node|) && dummy == old(dummy) && lastfree == old(lastfree)
      ensures Used(node, 0) == old(Used(node, 0)) && SameKeys(old(node), node)
    {
      hide InPlace, Pow2, Chained;
      ghost var arr0, node0 := arr, node;
      match s
      case Elem(i) =>
        arr := arr[i := v];
        forall q ensures Content(q) == if q == k then v else ContentOf(arr0, node, q) {
          StoreElem(arr0, node, i, v, q);
        }
      case Entry(p) =>
        node := node[p := node[p].(val := v)];
        ChainsForValues(hash, node0, rank, p, v);
        UsedSame(node0, node, 0);
        ChainedParts(hash, arr, node0, dummy, lastfree, rank);
        forall q ensures Content(q) == if q == k then v else ContentOf(arr, node0, q) {
          StoreEntry(arr, node0, p, v, q);
        }
    }

    method GetFreePos() returns (n: int)
      requires Valid()
      modifies this`lastfree
      ensures n == NULL ==> Valid()
      ensures n == NULL <==> !Room()
      ensures n != NULL ==> 0 <= n < |node| && !dummy && node[n].key.KNil? && lastfree == n
      ensures n != NULL ==> Good(hash, arr, node, dummy, n + 1, rank)
    {
      hide Chained, TwoTo, Apart;
      lastfree := lastfree - 1;
      while lastfree + 1 > 0
        invariant Good(hash, arr, node, dummy, lastfree + 1, rank)
        invariant lastfree + 1 <= |node|
        decreases lastfree + 1
      {
        if node[lastfree].key.KNil? {
          UsedNotAll(node, 0, lastfree);
          return lastfree;
        }
        lastfree := lastfree - 1;
      }
      if !dummy { UsedAll(node, 0); }
      return NULL;
    }

    // The node before mp on the chain of the key that is at mp.
    method FindPrevious(othern: int, mp: int) returns (prev: int)
      requires Chained(hash, node, rank) && 0 <= mp < |node| && !node[mp].key.KNil?
      requires othern == MainPosition(hash, node[mp].key, |node|) != mp
      ensures 0 <= prev < |node| && node[prev].next == mp
    {
      hide InPlace, FreeNodes, KeysOnce;
      assert OnChain(node, othern, mp) by { BeginsThere(hash, node, rank, mp); }
      prev := othern;
      while node[prev].next != mp
        invariant 0 <= prev < |node| && prev != mp && OnChain(node, prev, mp)
        decreases Above(rank, rank[prev])
      {
        ChainStep(node, prev, mp);
        LinkGoesUp(node, rank, prev);
        prev := node[prev].next;
      }
    }

    // The key at mp collides with k: k goes to the free node n, or takes mp from a key that
    // is not in its main position and moves to n.
    method Collide(mp: int, n: int, k: Key) returns (p: int)
      requires 0 <= n < |node| && !dummy && node[n].key.KNil? && lastfree == n
      requires Good(hash, arr, node, dummy, n + 1, rank) && Fresh(arr, node, k)
      requires mp == MainPosition(hash, k, |node|) && node[mp].val != VNil
      modifies this`node, this`rank
      ensures Valid() && Placed(arr, old(node), node, k, p)
    {
      hide Good, Fresh, Placed, InPlace, Used, IndexOf, ContentOf, Links, FreeNodes, KeysOnce;
      ghost var node0, rank0 := node, rank;
      ChainedParts(hash, arr, node, dummy, n + 1, rank);
      HasKey(hash, node, rank, mp);
      var othern := MainPosition(hash, node[mp].key, |node|);
      if othern != mp {
        var prev := FindPrevious(othern, mp);
        PlaceInstead(hash, arr, node, rank, mp, n, prev, k);
        node := node[prev := node[prev].(next := n)];
        node := node[n := node[mp]];
        node := node[mp := Node(node[mp].key, VNil, NULL)];
        node := node[mp := node[mp].(key := k)];
        rank := rank[n := rank[mp]];
        p := mp;
        assert node == Displaced(node0, mp, n, prev, k);
      } else {
        PlaceBehind(hash, arr, node, rank, mp, n, k);
        rank := rank[n := Between(node, rank, mp)];
        node := node[n := node[n].(next := node[mp].next)];
        node := node[mp := node[mp].(next := n)];
        node := node[n := node[n].(key := k)];
        p := n;
        assert node0[n].val == VNil by { HasKey(hash, node0, rank0, n); }
        assert node == Inserted(node0, mp, n, k);
      }
    }

    // newkey
    method NewKey(k: Key) returns (s: Slot, err: Error)
      requires Valid() && Fresh(arr, node, k)
      modifies this
      ensures Valid() && forall q :: Content(q) == old(Content(q))
      ensures err == NoError || err == TableOverflow
      ensures err == NoError ==> SlotOf(arr, node, k, s)
      ensures old(Room()) ==> err == NoError && Roomy(old(arr), old(node), old(dummy), k)
      ensures err == TableOverflow <==> old(Crowded(k)) && Full(old(arr), old(node), k)
      decreases if Room() then 0 else 5
    {
      hide Chained, Apart, Used, IndexOf, ContentOf, InPlace, TwoTo, TakenAbove;
      ChainedParts(hash, arr, node, dummy, lastfree, rank);
      var mp := MainPosition(hash, k, |node|);
      if node[mp].val != VNil || dummy {
        var n := GetFreePos();
        if n == NULL {
          err := Rehash(k);
          if err != NoError { return Nowhere, err; }
          s, err := Set(k);
          return;
        }
        mp := Collide(mp, n, k);
      } else {
        PlaceOver(hash, arr, node, lastfree, rank, mp, k);
        node := node[mp := node[mp].(key := k)];
      }
      return Entry(mp), NoError;
    }

    // luaH_set
    method Set(k: Key) returns (s: Slot, err: Error)
      requires Valid()
      modifies this
      ensures err == IndexIsNil <==> k.KNil?
      ensures err == IndexIsNaN <==> k.KNaN?
      ensures Valid() && forall q :: Content(q) == old(Content(q))
      ensures err == NoError ==> SlotOf(arr, node, k, s)
      ensures k.KNil? || k.KNaN? || old(Content(k)) != VNil ==> unchanged(this)
      ensures old(Content(k)) != VNil ==> err == NoError
      ensures old(Room() || InArrayPart(arr, k)) && !k.KNil? && !k.KNaN? ==>
        err == NoError && Roomy(old(arr), old(node), old(dummy), k)
      ensures err == TableOverflow <==> old(Crowded(k)) && Full(old(arr), old(node), k)
      decreases if Room() || InArrayPart(arr, k) then 1 else 6
    {
      hide Chained, Apart, Used, IndexOf, ContentOf, Good;
      s := Find(k);
      if s != Nowhere {
        return s, NoError;
      } else {
        if k.KNil? { return s, IndexIsNil; }
        if k.KNaN? { return s, IndexIsNaN; }
        IsFresh(arr, node, k);
        s, err := NewKey(k);
      }
    }

    // What an insertion that finds room does to the sizes.
    predicate Roomy(arr0: seq<Value>, node0: seq<Node>, dummy0: bool, k: Key)
      reads this
    {
      && |arr| == |arr0| && |node| == |node0| && dummy == dummy0
      && Used(node, 0) <= Used(node0, 0) + if InArrayPart(arr0, k) then 0 else 1
    }

    // t[k] = v
    method Put(k: Key, v: Value) returns (err: Error)
      requires Valid()
      modifies this
      ensures Valid()
      ensures err == IndexIsNil <==> k.KNil?
      ensures err == IndexIsNaN <==> k.KNaN?
      ensures err == TableOverflow <==> old(Crowded(k)) && Full(old(arr), old(node), k)
      ensures forall q :: Content(q) == if q == k && err == NoError then v else old(Content(q))
      ensures old(Content(k)) != VNil ==> err == NoError && |arr| == old(|arr|) && SameKeys(old(node), node)
      ensures old(Room() || InArrayPart(arr, k)) && !k.KNil? && !k.KNaN? ==>
        err == NoError && Roomy(old(arr), old(node), old(dummy), k)
      decreases if Room() || InArrayPart(arr, k) then 2 else 7
    {
      hide Good, Used, ContentOf;
      var s: Slot;
      s, err := Set(k);
      if err == NoError { Store(s, v, k); }
    }

    // ----- changing sizes -----

    method SetArrayVector(size: nat)
      requires |arr| <= size
      modifies this`arr
      ensures arr == old(arr) + Nils(size - old(|arr|))
    {
      var i := |arr|;
      while i < size
        invariant old(|arr|) <= i <= size && arr == old(arr) + Nils(i - old(|arr|))
      {
        arr := arr + [VNil];
        assert Nils(i - old(|arr|)) + [VNil] == Nils(i + 1 - old(|arr|));
        i := i + 1;
      }
    }

    method SetNodeVector(size: nat) returns (err: Error)
      modifies this`node, this`dummy, this`lastfree, this`rank
      ensures err == (if size <= MAXASIZE then NoError else TableOverflow)
      ensures err != NoError ==> unchanged(this)
      ensures err == NoError ==> dummy == (size == 0) && NodesFor(|node|, size) && forall p :: 0 <= p < |node| ==>
                node[p] == FREE
      ensures err == NoError && |arr| <= MAXASIZE ==> Valid()
    {
      hide Pow2;
      FirstSlice();
      if size == 0 {
        node, dummy, lastfree, rank := DUMMY, true, 0, [0.0];
      } else {
        AtMostMaxBits(size);
        var lsize := CeilLog2(size);
        if lsize > MAXBITS { return TableOverflow; }
        LeastPower(size);
        var i, vector := 0, [];
        while i < Pow2(lsize)
          invariant i == |vector| <= Pow2(lsize) && forall p :: 0 <= p < i ==> vector[p] == FREE
        {
          vector := vector + [FREE];
          i := i + 1;
        }
        node, dummy, lastfree, rank := vector, false, i, seq(i, _ => 0.0);
      }
      err := NoError;
    }

    // resize
    method Resize(nasize: nat, nhsize: nat) returns (err: Error)
      requires Valid() && nasize <= MAXASIZE && Needed(arr, node, nasize) <= nhsize
      modifies this
      ensures err == (if nhsize <= MAXASIZE then NoError else TableOverflow)
      ensures err == NoError ==> Valid() && |arr| == nasize && forall q :: Content(q) == old(Content(q))
      ensures err == NoError ==>
                Used(node, 0) <= Needed(old(arr), old(node), nasize) && NodesFor(|node|, nhsize) &&
                dummy == (nhsize == 0)
      ensures err != NoError ==> arr == old(arr) + Nils(nasize - old(|arr|))
      ensures err != NoError ==>
                node == old(node) && dummy == old(dummy) && lastfree == old(lastfree) && rank == old(rank)
      decreases 3
    {
      hide Good, Used, InArray, Outside, IndexOf, ContentOf, Elements, Reinserted;
      ghost var dummy0 := dummy;
      ChainedParts(hash, arr, node, dummy, lastfree, rank);
      var oldarr, nold := arr, node;
      if nasize > |oldarr| { SetArrayVector(nasize); }
      err := SetNodeVector(nhsize);
      if err != NoError { return; }
      NoneUsed(node);
      ghost var any := arr;
      if nasize < |oldarr| { arr := arr[..nasize]; }
      StartsEmpty(hash, any, oldarr, arr, node, dummy, lastfree, rank, nasize);
      PutElements(oldarr, nold, nasize, nhsize);
      ArrayDone(oldarr, nold, nasize);
      PutNodes(oldarr, nold, nasize, nhsize, dummy0, old(lastfree), old(rank));
      AllDone(oldarr, nold);
    }

    // The elements above nasize are put again.
    method PutElements(oldarr: seq<Value>, ghost nold: seq<Node>, nasize: nat, ghost nhsize: nat)
      requires Valid() && |arr| == nasize && NodesFor(|node|, nhsize) && dummy == (nhsize == 0) && Used(node, 0) == 0
      requires forall q :: Content(q) == Elements(oldarr, if nasize < |oldarr| then nasize else |oldarr|, q)
      requires Needed(oldarr, nold, nasize) <= nhsize
      modifies this
      ensures Valid() && |arr| == nasize && NodesFor(|node|, nhsize) && dummy == (nhsize == 0)
      ensures Used(node, 0) <= InArray(oldarr, nasize, |oldarr|)
      ensures forall q :: Content(q) == Elements(oldarr, |oldarr|, q)
      decreases 3, 0
    {
      hide Good, Used, InArray, Outside, ContentOf, Elements;
      var i: nat := if nasize < |oldarr| then nasize else |oldarr|;
      while i < |oldarr|
        invariant i <= |oldarr| && Valid() && |arr| == nasize && NodesFor(|node|, nhsize) && dummy == (nhsize == 0)
        invariant Used(node, 0) <= InArray(oldarr, nasize, i)
        invariant forall q :: Content(q) == Elements(oldarr, i, q)
      {
        OneElement(oldarr, nold, nasize, i);
        if oldarr[i] != VNil {
          var e := Put(KInt(i + 1), oldarr[i]);
        }
        i := i + 1;
      }
    }

    // The entries of the old nodes are put again, from the last one down.
    method PutNodes(oldarr: seq<Value>, nold: seq<Node>, nasize: nat, ghost nhsize: nat, ghost dummy0: bool,
        ghost lastfree0: int, ghost rank0: seq<real>)
      requires Valid() && |arr| == nasize && NodesFor(|node|, nhsize) && dummy == (nhsize == 0)
      requires Used(node, 0) <= InArray(oldarr, nasize, |oldarr|)
      requires forall q :: Content(q) == Reinserted(oldarr, nold, |nold|, q)
      requires Good(hash, oldarr, nold, dummy0, lastfree0, rank0) && Needed(oldarr, nold, nasize) <= nhsize
      modifies this
      ensures Valid() && |arr| == nasize && NodesFor(|node|, nhsize) && dummy == (nhsize == 0)
      ensures Used(node, 0) <= InArray(oldarr, nasize, |oldarr|) + Outside(nold, 0, nasize)
      ensures forall q :: Content(q) == Reinserted(oldarr, nold, 0, q)
      decreases 3, 0
    {
      hide Good, Used, InArray, Outside, ContentOf, Reinserted;
      var i: nat := |nold|;
      while i > 0
        invariant i <= |nold| && Valid() && |arr| == nasize && NodesFor(|node|, nhsize) && dummy == (nhsize == 0)
        invariant Used(node, 0) <= InArray(oldarr, nasize, |oldarr|) + Outside(nold, i, nasize)
        invariant forall q :: Content(q) == Reinserted(oldarr, nold, i, q)
      {
        i := i - 1;
        OneEntry(hash, oldarr, nold, dummy0, lastfree0, rank0, nasize, i);
        if nold[i].val != VNil {
          var e := Put(nold[i].key, nold[i].val);
        }
      }
    }

    // luaH_resizearray, which only lengthens the array part
    method ResizeArray(nasize: nat)
      requires Valid() && |arr| <= nasize <= MAXASIZE
      modifies this
      ensures Valid() && |arr| == nasize && forall q :: Content(q) == old(Content(q))
    {
      hide ContentOf, Good;
      var nsize := if dummy then 0 else |node|;
      HashPartFits(hash, arr, node, dummy, lastfree, rank, nasize);
      var err := Resize(nasize, nsize);
    }

    // rehash: sizes for the keys there are and the key to come
    method Rehash(ek: Key) returns (err: Error)
      requires Valid() && Fresh(arr, node, ek) && !Room()
      modifies this
      ensures Valid() && forall q :: Content(q) == old(Content(q))
      ensures err == NoError ==> Room() || InArrayPart(arr, ek)
      ensures err == NoError ==> exists na :: Optimal(Counts(old(arr), old(node), ek), |arr|, na)
      ensures err == NoError || err == TableOverflow
      ensures err == TableOverflow <==> Full(old(arr), old(node), ek)
      decreases 4
    {
      hide Good, InArray, Outside, Needed, IndexOf, ContentOf, Optimal, Candidates, Entries, InNodes, Pow2, Lo, Used;
      GoodSizes(hash, arr, node, dummy, lastfree, rank, ek);
      var nums := new int[MAXBITS + 1];
      var i := 0;
      while i <= MAXBITS
        modifies nums
        invariant i <= MAXBITS + 1 && forall j :: 0 <= j < i ==> nums[j] == 0
      {
        nums[i] := 0;
        i := i + 1;
      }
      var nasize := NumUseArray(arr, nums);
      var totaluse := nasize;
      var entries;
      entries, nasize := NumUseHash(node, nums, nasize);
      totaluse := totaluse + entries;
      var one := CountInt(ek, nums);
      nasize := nasize + one;
      totaluse := totaluse + 1;
      AllCandidates(nums[..], arr, node, ek, nasize);
      ghost var c := Counts(arr, node, ek);
      var n, na := ComputeSizes(nums[..], nasize, c);
      Sizes(arr, node, ek, n, na);
      OnlyOptimal(arr, node, ek, n, na);
      err := Resize(n, totaluse - na);
      if err != NoError { GrowthKeeps(hash, old(arr), arr, node, dummy, lastfree, rank, n); }
    }

    // ----- runs -----

    ghost predicate Refines(m: map<Key, Value>)
      reads this
    {
      forall q :: Content(q) == Lookup(m, q)
    }

    // Any run of writes, reads and lengthenings, answered as by a finite map.
    method Serve(requests: seq<Request>, ghost m: map<Key, Value>) returns (replies: seq<Reply>)
      requires Valid() && Refines(m)
      requires forall r :: r in requests && r.Lengthen? ==> r.n <= MAXASIZE
      modifies this
      ensures Valid() && |replies| == |requests| && Refines(After(m, requests, replies))
      ensures forall i :: 0 <= i < |requests| ==>
                Answers(After(m, requests[..i], replies[..i]), requests[i], replies[i])
    {
      hide Good, ContentOf, After, Lookup, Used;
      replies := [];
      AfterNothing(m);
      while |replies| < |requests|
        invariant |replies| <= |requests| && Valid()
        invariant Refines(After(m, requests[..|replies|], replies))
        invariant forall i :: 0 <= i < |replies| ==>
                    Answers(After(m, requests[..i], replies[..i]), requests[i], replies[i])
      {
        var i := |replies|;
        ghost var now := After(m, requests[..i], replies);
        var r := requests[i];
        var reply := Done;
        match r {
          case Write(k, v) =>
            ghost var arr0, node0, dummy0, lastfree0, rank0 := arr, node, dummy, lastfree, rank;
            var err := Put(k, v);
            if err == TableOverflow { FullMeansMany(hash, arr0, node0, dummy0, lastfree0, rank0, k, now); }
            if err != NoError { reply := Failed(err); }
          case Read(k) =>
            var v := Get(k);
            reply := Got(v);
          case Lengthen(n) =>
            if n > |arr| { ResizeArray(n); }
        }
        AfterOne(m, requests[..i], replies, r, reply);
        AfterWrite(now, r, reply);
        assert requests[..i + 1] == requests[..i] + [r];
        assert replies == (replies + [reply])[..i];
        forall j | 0 <= j < i ensures (replies + [reply])[..j] == replies[..j] {}
        replies := replies + [reply];
      }
      assert requests[..|requests|] == requests;
    }

    // ----- borders -----

    // luaH_getn
    method GetN() returns (n: nat)
      requires Valid()
      ensures n == 0 || Content(KInt(n)) != VNil
      ensures Content(KInt(n + 1)) == VNil
      ensures n <= MAX_INT
    {
      hide Good, IndexOf;
      ChainedParts(hash, arr, node, dummy, lastfree, rank);
      var j := |arr|;
      if j > 0 && arr[j - 1] == VNil {
        var i := 0;
        while j - i > 1
          invariant 0 <= i < j <= |arr| && (i == 0 || arr[i - 1] != VNil) && arr[j - 1] == VNil
        {
          var m := (i + j) / 2;
          if arr[m - 1] == VNil { j := m; } else { i := m; }
        }
        return i;
      } else if dummy {
        DummyIsEmpty(hash, arr, node, lastfree, rank);
        return j;
      } else {
        n := UnboundSearch(j);
      }
    }

    // Doubles until a nil is found, then searches between; numbers past MAX_INT make it count.
    method UnboundSearch(j0: nat) returns (n: nat)
      requires Valid() && j0 <= MAXASIZE && (j0 == 0 || Content(KInt(j0)) != VNil)
      ensures n == 0 || Content(KInt(n)) != VNil
      ensures Content(KInt(n + 1)) == VNil
      ensures n <= MAX_INT
    {
      hide ContentOf, Good;
      var i, j := j0, j0 + 1;
      var v := Get(KInt(j));
      while v != VNil
        invariant 0 <= i < j <= MAX_INT && v == Content(KInt(j))
        invariant i == 0 || Content(KInt(i)) != VNil
        decreases MAX_INT - j, if v == VNil then 0 else 1
      {
        i, j := j, j * 2;
        if j > MAX_INT {
          n := LinearSearch();
          return;
        }
        v := Get(KInt(j));
      }
      while j - i > 1
        invariant 0 <= i < j <= MAX_INT && Content(KInt(j)) == VNil
        invariant i == 0 || Content(KInt(i)) != VNil
      {
        var m := (i + j) / 2;
        v := Get(KInt(m));
        if v == VNil { j := m; } else { i := m; }
      }
      return i;
    }

    method LinearSearch() returns (n: nat)
      requires Valid()
      ensures n == 0 || Content(KInt(n)) != VNil
      ensures Content(KInt(n + 1)) == VNil
      ensures n <= MAX_INT
    {
      hide ContentOf, Good;
      var i := 1;
      var v := Get(KInt(i));
      NoMoreThanSlots(hash, arr, node, dummy, lastfree, rank, 0);
      while v != VNil
        invariant 1 <= i <= |arr| + |node| + 1 && v == Content(KInt(i))
        invariant forall m :: 1 <= m < i ==> Content(KInt(m)) != VNil
        decreases |arr| + |node| + 1 - i, if v == VNil then 0 else 1
      {
        NoMoreThanSlots(hash, arr, node, dummy, lastfree, rank, i);
        i := i + 1;
        v := Get(KInt(i));
      }
      return i - 1;
    }

    // ----- traversal -----

    // findindex
    method FindIndex(key: Key) returns (i: int, ok: bool)
      requires Valid()
      ensures ok <==> key.KNil? || HasSlot(arr, node, key)
      ensures ok ==> i == Position(arr, node, key)
    {
      if key.KNil? { return -1, true; }
      if InArrayPart(arr, key) { return key.n - 1, true; }
      NaNNowhere(arr, node, key);
      var p := FindNode(key);
      return p + |arr|, p != NULL;
    }

    // luaH_next; not ok is the error "invalid key to 'next'"
    method Next(key: Key) returns (ok: bool, found: bool, key': Key, val: Value)
      requires Valid()
      ensures ok <==> key.KNil? || HasSlot(arr, node, key)
      ensures ok && found ==> val == Content(key') != VNil && Position(arr, node, key') > Position(arr, node, key)
      ensures ok ==> forall q :: Content(q) != VNil && Position(arr, node, q) > Position(arr, node, key) ==>
        found && Position(arr, node, q) >= Position(arr, node, key')
    {
      hide Good, IndexOf, ContentOf, Position, HasSlot;
      var i: int;
      i, ok := FindIndex(key);
      found, key', val := false, KNil, VNil;
      if !ok { return; }
      i := i + 1;
      while i < |arr|
        invariant 0 <= i && Position(arr, node, key) < i
        invariant forall j :: 0 <= j < |arr| + |node| && Position(arr, node, key) < j < i ==>
                    SlotValue(arr, node, j) == VNil
      {
        if arr[i] != VNil {
          LiveSlot(hash, arr, node, dummy, lastfree, rank, i);
          NothingBetween(hash, arr, node, dummy, lastfree, rank, Position(arr, node, key), i);
          return ok, true, KInt(i + 1), arr[i];
        }
        i := i + 1;
      }
      i := i - |arr|;
      while i < |node|
        invariant 0 <= i && Position(arr, node, key) < i + |arr|
        invariant forall j :: 0 <= j < |arr| + |node| && Position(arr, node, key) < j < i + |arr| ==>
                    SlotValue(arr, node, j) == VNil
      {
        if node[i].val != VNil {
          LiveSlot(hash, arr, node, dummy, lastfree, rank, i + |arr|);
          NothingBetween(hash, arr, node, dummy, lastfree, rank, Position(arr, node, key), i + |arr|);
          return ok, true, node[i].key, node[i].val;
        }
        i := i + 1;
      }
      NothingBetween(hash, arr, node, dummy, lastfree, rank, Position(arr, node, key), i + |arr|);
    }

    // A loop body: assignments to fields that are there, with any value, nil included.
    method Assign(changes: seq<(Key, Value)>)
      requires Valid()
      modifies this
      ensures Valid() && |arr| == old(|arr|) && SameKeys(old(node), node)
      ensures forall q :: old(Content(q)) == VNil ==> Content(q) == VNil
      ensures forall q :: (forall c :: c in changes ==> c.0 != q) ==> Content(q) == old(Content(q))
    {
      hide Good, ContentOf, Used;
      var i := 0;
      while i < |changes|
        invariant i <= |changes| && Valid() && |arr| == old(|arr|) && SameKeys(old(node), node)
        invariant forall q :: old(Content(q)) == VNil ==> Content(q) == VNil
        invariant forall q :: (forall c :: c in changes[..i] ==> c.0 != q) ==> Content(q) == old(Content(q))
      {
        var (k, v) := changes[i];
        assert changes[..i + 1] == changes[..i] + [changes[i]];
        var there := Get(k);
        if there != VNil {
          ghost var node1 := node;
          var err := Put(k, v);
        }
        i := i + 1;
      }
      assert changes[..i] == changes;
    }

    // A whole traversal with next from nil: `for key, val in next, t do body(key, val) end'.
    method Traverse(body: (Key, Value) -> seq<(Key, Value)>) returns (visited: seq<(Key, Value)>)
      requires Valid()
      modifies this
      ensures Valid()
      ensures forall a, b :: 0 <= a < b < |visited| ==> visited[a].0 != visited[b].0
      ensures forall e :: e in visited ==> old(Content(e.0)) != VNil
      ensures forall q :: Content(q) != VNil ==> Seen(visited, q)
      ensures forall e :: e in visited && Untouched(body, e.0) ==> e.1 == old(Content(e.0))
      ensures forall q :: Untouched(body, q) ==> Content(q) == old(Content(q))
    {
      hide Good, ContentOf, Position, HasSlot, Used, IndexOf, Ascending;
      visited := [];
      var key := KNil;
      ghost var last := Position(arr, node, key);
      NilIsFirst(hash, arr, node, dummy, lastfree, rank);
      NoneVisited(arr, node, last);
      var ok, found, next, val := Next(key);
      while found
        invariant Valid() && |arr| == old(|arr|) && SameKeys(old(node), node)
        invariant ok && last == Position(arr, node, key) < |arr| + |node|
        invariant found ==> val == Content(next) != VNil && Position(arr, node, next) > last
        invariant forall q :: Content(q) != VNil && Position(arr, node, q) > last ==>
                    found && Position(arr, node, q) >= Position(arr, node, next)
        invariant forall q :: Content(q) != VNil && Position(arr, node, q) <= last ==> Seen(visited, q)
        invariant Ascending(arr, node, visited, last)
        invariant forall e :: e in visited ==> old(Content(e.0)) != VNil
        invariant forall e :: e in visited && Untouched(body, e.0) ==> e.1 == old(Content(e.0))
        invariant forall q :: Untouched(body, q) ==> Content(q) == old(Content(q))
        invariant forall q :: old(Content(q)) == VNil ==> Content(q) == VNil
        decreases |arr| + |node| - last, if found then 1 else 0
      {
        ghost var arr0, node0, visited0 := arr, node, visited;
        OnePosition(hash, arr, node, dummy, lastfree, rank, next);
        key := next;
        OneVisited(arr, node, visited, last, (key, val));
        last := Position(arr, node, key);
        visited := visited + [(key, val)];
        SeenMore(visited0, (key, val));
        Assign(body(key, val));
        SamePositions(arr0, arr, node0, node);
        StillAscending(arr0, arr, node0, node, visited, last);
        ok, found, next, val := Next(key);
      }
      NoneTwice(arr, node, visited, last);
    }
  }

  lemma DummyIsGood(hash: Key -> nat)
    ensures Good(hash, [], DUMMY, true, 0, [0.0]) && forall q :: ContentOf([], DUMMY, q) == VNil
  {
    assert |DUMMY| == Pow2(0);
  }

  // Some visit was to the key q.
  ghost predicate Seen(visited: seq<(Key, Value)>, q: Key) {
    exists e :: e in visited && e.0 == q
  }

  lemma SeenMore(visited: seq<(Key, Value)>, e: (Key, Value))
    ensures Seen(visited + [e], e.0) && forall q :: Seen(visited, q) ==> Seen(visited + [e], q)
  {
    assert e in visited + [e];
    forall q | Seen(visited, q) ensures Seen(visited + [e], q) {
      var d :| d in visited && d.0 == q;
      assert d in visited + [e];
    }
  }

  // The visits are in the order of the slots, up to position last.
  ghost predicate Ascending(arr: seq<Value>, node: seq<Node>, visited: seq<(Key, Value)>, last: int) {
    && (forall a :: 0 <= a < |visited| ==> Position(arr, node, visited[a].0) <= last)
    && forall a, b :: 0 <= a < b < |visited| ==> Position(arr, node, visited[a].0) < Position(arr, node, visited[b].0)
  }

  lemma NoneVisited(arr: seq<Value>, node: seq<Node>, last: int)
    ensures Ascending(arr, node, [], last)
  {
  }

  lemma OneVisited(arr: seq<Value>, node: seq<Node>, visited: seq<(Key, Value)>, last: int, e: (Key, Value))
    requires Ascending(arr, node, visited, last) && Position(arr, node, e.0) > last
    ensures Ascending(arr, node, visited + [e], Position(arr, node, e.0))
  {
    hide Position;
  }

  lemma StillAscending(arr: seq<Value>, arr': seq<Value>, node: seq<Node>, node': seq<Node>, visited: seq<(Key, Value)>,
      last: int)
    requires Ascending(arr, node, visited, last) && forall q :: Position(arr', node', q) == Position(arr, node, q)
    ensures Ascending(arr', node', visited, last)
  {
    hide Position;
  }

  lemma NoneTwice(arr: seq<Value>, node: seq<Node>, visited: seq<(Key, Value)>, last: int)
    requires Ascending(arr, node, visited, last)
    ensures forall a, b :: 0 <= a < b < |visited| ==> visited[a].0 != visited[b].0
  {
    hide Position;
  }

  // The body never assigns to the field q.
  ghost predicate Untouched(body: (Key, Value) -> seq<(Key, Value)>, q: Key) {
    forall k, v, c :: c in body(k, v) ==> c.0 != q
  }

  lemma NilIsFirst(hash: Key -> nat, arr: seq<Value>, node: seq<Node>, dummy: bool, lastfree: int, rank: seq<real>)
    requires Good(hash, arr, node, dummy, lastfree, rank)
    ensures Position(arr, node, KNil) == -1
    ensures forall q :: ContentOf(arr, node, q) != VNil ==> Position(arr, node, q) >= 0
  {
    hide Good, ContentOf;
    forall q | ContentOf(arr, node, q) != VNil ensures Position(arr, node, q) >= 0 {
      PositionOfContent(hash, arr, node, dummy, lastfree, rank, q);
    }
  }

  lemma OnePosition(hash: Key -> nat, arr: seq<Value>, node: seq<Node>, dummy: bool, lastfree: int, rank: seq<real>,
      r: Key)
    requires Good(hash, arr, node, dummy, lastfree, rank) && ContentOf(arr, node, r) != VNil
    ensures HasSlot(arr, node, r)
    ensures forall q :: ContentOf(arr, node, q) != VNil && Position(arr, node, q) == Position(arr, node, r) ==> q == r
  {
    hide Good, ContentOf, Position, HasSlot;
    PositionOfContent(hash, arr, node, dummy, lastfree, rank, r);
    forall q | ContentOf(arr, node, q) != VNil && Position(arr, node, q) == Position(arr, node, r) ensures q == r {
      PositionOfContent(hash, arr, node, dummy, lastfree, rank, q);
    }
  }

  // ----- a finite map as the specification -----

  datatype Request = Write(k: Key, v: Value) | Read(k: Key) | Lengthen(n: nat)

  datatype Reply = Done | Failed(e: Error) | Got(v: Value)

  function Lookup(m: map<Key, Value>, q: Key): Value {
    if q in m then m[q] else VNil
  }

  // The keys that have a value.
  function Present(m: map<Key, Value>): set<Key> {
    set q | q in m && m[q] != VNil
  }

  function Effect(m: map<Key, Value>, r: Request, p: Reply): map<Key, Value> {
    if r.Write? && p == Done then m[r.k := r.v] else m
  }

  function After(m: map<Key, Value>, requests: seq<Request>, replies: seq<Reply>): map<Key, Value>
    requires |requests| == |replies|
  {
    if requests == [] then m
    else var i := |requests| - 1; Effect(After(m, requests[..i], replies[..i]), requests[i], replies[i])
  }

  predicate Answers(m: map<Key, Value>, r: Request, p: Reply) {
    match r
    case Write(k, v) =>
      (k.KNil? <==> p == Failed(IndexIsNil)) && (k.KNaN? <==> p == Failed(IndexIsNaN)) &&
      (p == Done || (p.Failed? && p.e != NoError)) && (Lookup(m, k) != VNil ==> p == Done) &&
      (p == Failed(TableOverflow) ==> |Present(m)| >= MAXASIZE)
    case Read(k) => p == Got(Lookup(m, k))
    case Lengthen(n) => p == Done
  }

  lemma AfterNothing(m: map<Key, Value>)
    ensures After(m, [], []) == m
  {
  }

  lemma AfterOne(m: map<Key, Value>, requests: seq<Request>, replies: seq<Reply>, r: Request, p: Reply)
    requires |requests| == |replies|
    ensures After(m, requests + [r], replies + [p]) == Effect(After(m, requests, replies), r, p)
  {
    assert (requests + [r])[..|requests|] == requests && (replies + [p])[..|replies|] == replies;
  }

  lemma AfterWrite(m: map<Key, Value>, r: Request, p: Reply)
    ensures forall q :: Lookup(Effect(m, r, p), q) == if r.Write? && p == Done && q == r.k then r.v else Lookup(m, q)
  {
  }

  // For the best array part there is, the hash part would be too large.
  ghost predicate Full(arr: seq<Value>, node: seq<Node>, ek: Key) {
    exists n: nat, na :: Optimal(Counts(arr, node, ek), n, na) &&
      Needed(arr, node, n) + (if IntIn(ek, 0, n) then 0 else 1) > MAXASIZE
  }

  lemma OnlyOptimal(arr: seq<Value>, node: seq<Node>, ek: Key, n: nat, na: int)
    requires Optimal(Counts(arr, node, ek), n, na)
    ensures Full(arr, node, ek) <==> Needed(arr, node, n) + (if IntIn(ek, 0, n) then 0 else 1) > MAXASIZE
  {
    var c := Counts(arr, node, ek);
    hide Needed, Counts;
    forall n': nat, na' | Optimal(c, n', na') ensures n' == n {
      if n > 0 { var i :| 0 <= i < MAXBITS + 1 && n == Pow2(i); }
      if n' > 0 { var i :| 0 <= i < MAXBITS + 1 && n' == Pow2(i); }
    }
  }

  // ----- no overflow before there are as many keys as the hash part can have nodes -----

  function NodeKeys(node: seq<Node>, from: nat): set<Key>
    decreases |node| - from
  {
    if from >= |node| then {}
    else NodeKeys(node, from + 1) + if node[from].val != VNil then {node[from].key} else {}
  }

  function ElementKeys(arr: seq<Value>, n: nat): set<Key>
    requires n <= |arr|
  {
    if n == 0 then {} else ElementKeys(arr, n - 1) + if arr[n - 1] != VNil then {KInt(n)} else {}
  }

  lemma {:induction false} NodeKeysCount(node: seq<Node>, from: nat)
    requires FreeNodes(node) && KeysOnce(node)
    ensures |NodeKeys(node, from)| == Entries(node, from)
    ensures forall k :: k in NodeKeys(node, from) ==>
              exists p :: from <= p < |node| && node[p].key == k && node[p].val != VNil
    decreases |node| - from
  {
    if from < |node| {
      NodeKeysCount(node, from + 1);
      assert node[from].val != VNil ==> node[from].key !in NodeKeys(node, from + 1);
    }
  }

  // The least power of two that is large enough, which is one for an empty part.
  predicate NodesFor(n: nat, size: nat) {
    if size == 0 then n == 1 else size <= n < 2 * size
  }

  lemma {:induction false} ElementKeysCount(arr: seq<Value>, n: nat)
    requires n <= |arr|
    ensures |ElementKeys(arr, n)| == InArray(arr, 0, n)
    ensures forall k :: k in ElementKeys(arr, n) ==> IntIn(k, 0, n) && arr[k.n - 1] != VNil
    decreases n
  {
    if n > 0 {
      ElementKeysCount(arr, n - 1);
      assert KInt(n) !in ElementKeys(arr, n - 1);
      if arr[n - 1] != VNil {
        assert ElementKeys(arr, n) == ElementKeys(arr, n - 1) + {KInt(n)};
      } else {
        assert ElementKeys(arr, n) == ElementKeys(arr, n - 1);
      }
    }
  }

  lemma FullMeansMany(hash: Key -> nat, arr: seq<Value>, node: seq<Node>, dummy: bool, lastfree: int, rank: seq<real>,
      ek: Key, m: map<Key, Value>)
    requires Good(hash, arr, node, dummy, lastfree, rank) && Full(arr, node, ek)
    requires forall q :: ContentOf(arr, node, q) == Lookup(m, q)
    ensures |Present(m)| >= MAXASIZE
  {
    hide Needed, Pow2, Optimal;
    var n: nat, na :| Optimal(Counts(arr, node, ek), n, na) &&
      Needed(arr, node, n) + (if IntIn(ek, 0, n) then 0 else 1) > MAXASIZE;
    NoMoreNeeded(arr, node, n);
    NodeKeysCount(node, 0);
    ElementKeysCount(arr, |arr|);
    var a, b := ElementKeys(arr, |arr|), NodeKeys(node, 0);
    assert a !! b;
    assert |a + b| == |a| + |b|;
    forall k | k in a + b ensures k in Present(m) {
      if k in b {
        var p :| 0 <= p < |node| && node[p].key == k && node[p].val != VNil;
        LiveSlot(hash, arr, node, dummy, lastfree, rank, |arr| + p);
      }
      assert Lookup(m, k) != VNil;
    }
    Fewer(a + b, Present(m));
  }

  lemma NoMoreNeeded(arr: seq<Value>, node: seq<Node>, n: nat)
    ensures Needed(arr, node, n) <= InArray(arr, 0, |arr|) + Entries(node, 0)
  {
    OutsideIs(node, 0, n);
    if n <= |arr| { InArraySplit(arr, 0, n, |arr|); }
  }

  lemma Fewer<T>(a: set<T>, b: set<T>)
    requires a <= b
    ensures |a| <= |b|
  {
    assert b == a + (b - a);
  }

  // ----- what is in the table while it is rebuilt -----

  // The first i elements.
  function Elements(oldarr: seq<Value>, i: nat, q: Key): Value
    requires i <= |oldarr|
  {
    if IntIn(q, 0, i) then oldarr[q.n - 1] else VNil
  }

  // All elements, and the entries at i or above.
  function Reinserted(oldarr: seq<Value>, nold: seq<Node>, i: nat, q: Key): Value {
    if IntIn(q, 0, |oldarr|) then oldarr[q.n - 1]
    else var p := IndexOf(nold, q); if p == NULL || p < i then VNil else nold[p].val
  }

  lemma NoneUsed(node: seq<Node>)
    requires forall p :: 0 <= p < |node| ==> node[p] == FREE
    ensures Used(node, 0) == 0
  {
    UsedNone(node, 0);
  }
  lemma ChainedParts(hash: Key -> nat, arr: seq<Value>, node: seq<Node>, dummy: bool, lastfree: int, rank: seq<real>)
    requires Good(hash, arr, node, dummy, lastfree, rank)
    ensures Chained(hash, node, rank) && |node| > 0 && |rank| == |node| && Links(node, rank) && Apart(arr, node)
    ensures FreeNodes(node) && KeysOnce(node) && |arr| <= MAXASIZE
  {
  }

  lemma StartOfChain(hash: Key -> nat, node: seq<Node>, rank: seq<real>, k: Key)
    requires Chained(hash, node, rank) && !k.KNil?
    ensures IndexOf(node, k) != NULL ==> OnChain(node, MainPosition(hash, k, |node|), IndexOf(node, k))
  {
    if IndexOf(node, k) != NULL { assert InPlace(hash, node, IndexOf(node, k)); }
  }

  lemma NaNNowhere(arr: seq<Value>, node: seq<Node>, k: Key)
    requires Apart(arr, node)
    ensures k.KNaN? ==> IndexOf(node, k) == NULL
  {
  }

  lemma NilNowhere(hash: Key -> nat, node: seq<Node>, rank: seq<real>)
    requires Chained(hash, node, rank)
    ensures IndexOf(node, KNil) != NULL ==> node[IndexOf(node, KNil)].val == VNil
  {
    var p := IndexOf(node, KNil);
    assert p != NULL ==> node[p].key.KNil?;
  }

  lemma HasKey(hash: Key -> nat, node: seq<Node>, rank: seq<real>, p: int)
    requires Chained(hash, node, rank) && 0 <= p < |node|
    ensures node[p].val != VNil ==> !node[p].key.KNil?
  {
  }

  lemma BeginsThere(hash: Key -> nat, node: seq<Node>, rank: seq<real>, p: int)
    requires Chained(hash, node, rank) && 0 <= p < |node| && !node[p].key.KNil?
    ensures OnChain(node, MainPosition(hash, node[p].key, |node|), p)
  {
    assert InPlace(hash, node, p);
  }

  lemma IsFresh(arr: seq<Value>, node: seq<Node>, k: Key)
    requires !k.KNil? && !k.KNaN? && !InArrayPart(arr, k) && IndexOf(node, k) == NULL
    ensures Fresh(arr, node, k)
  {
  }

  lemma StartsEmpty(hash: Key -> nat, any: seq<Value>, oldarr: seq<Value>, arr: seq<Value>, node: seq<Node>,
                    dummy: bool, lastfree: int, rank: seq<real>, nasize: nat)
    requires Good(hash, any, node, dummy, lastfree, rank) && nasize <= MAXASIZE
    requires forall p :: 0 <= p < |node| ==> node[p] == FREE
    requires arr == if nasize < |oldarr| then oldarr[..nasize] else oldarr + Nils(nasize - |oldarr|)
    ensures Good(hash, arr, node, dummy, lastfree, rank)
    ensures forall q :: ContentOf(arr, node, q) == Elements(oldarr, if nasize < |oldarr| then nasize else |oldarr|, q)
  {
    hide Chained, TwoTo;
  }

  lemma {:induction false} InArrayUp(arr: seq<Value>, lo: nat, mid: nat, hi: nat)
    requires mid <= hi
    ensures InArray(arr, lo, mid) <= InArray(arr, lo, hi)
    decreases hi
  {
    if mid < hi { InArrayUp(arr, lo, mid, hi - 1); }
  }

  lemma {:induction false} OutsideUp(node: seq<Node>, from: nat, upto: nat, n: nat)
    requires from <= upto
    ensures Outside(node, upto, n) <= Outside(node, from, n)
    decreases upto - from
  {
    if from < upto { OutsideUp(node, from + 1, upto, n); }
  }

  lemma OneElement(oldarr: seq<Value>, nold: seq<Node>, nasize: nat, i: nat)
    requires nasize <= i < |oldarr|
    ensures InArray(oldarr, nasize, i + 1) == InArray(oldarr, nasize, i) + if oldarr[i] != VNil then 1 else 0
    ensures InArray(oldarr, nasize, i + 1) <= Needed(oldarr, nold, nasize)
    ensures forall q :: Elements(oldarr, i + 1, q) == if q == KInt(i + 1) then oldarr[i] else Elements(oldarr, i, q)
    ensures oldarr[i] == VNil ==> forall q :: Elements(oldarr, i + 1, q) == Elements(oldarr, i, q)
  {
    InArrayUp(oldarr, nasize, i + 1, |oldarr|);
    forall q ensures Elements(oldarr, i + 1, q) == if q == KInt(i + 1) then oldarr[i] else Elements(oldarr, i, q) {
      assert q.KInt? ==> q == KInt(q.n);
    }
  }

  lemma ArrayDone(oldarr: seq<Value>, nold: seq<Node>, nasize: nat)
    ensures forall q :: Elements(oldarr, |oldarr|, q) == Reinserted(oldarr, nold, |nold|, q)
    ensures Outside(nold, |nold|, nasize) == 0
    ensures |oldarr| <= nasize ==> InArray(oldarr, nasize, |oldarr|) == 0
  {
  }

  lemma OneEntry(hash: Key -> nat, oldarr: seq<Value>, nold: seq<Node>, dummy: bool, lastfree: int, rank: seq<real>,
                 nasize: nat, i: nat)
    requires Good(hash, oldarr, nold, dummy, lastfree, rank) && i < |nold|
    ensures var key, val := nold[i].key, nold[i].val;
      && (forall q :: Reinserted(oldarr, nold, i, q) == if q == key && val != VNil then val
          else Reinserted(oldarr, nold, i + 1, q))
      && (val != VNil ==> !key.KNil? && !key.KNaN?)
      && Outside(nold, i, nasize) == Outside(nold, i + 1, nasize) + if val != VNil && !IntIn(key, 0, nasize) then 1
         else 0
    ensures InArray(oldarr, nasize, |oldarr|) + Outside(nold, i, nasize) <= Needed(oldarr, nold, nasize)
  {
    hide InPlace, TwoTo, TakenAbove, Links;
    OutsideUp(nold, 0, i, nasize);
    var key, val := nold[i].key, nold[i].val;
    if val != VNil { IndexIs(nold, key, i); }
  }

  lemma AllDone(oldarr: seq<Value>, nold: seq<Node>)
    ensures forall q :: Reinserted(oldarr, nold, 0, q) == ContentOf(oldarr, nold, q)
    ensures forall nasize ::
              InArray(oldarr, nasize, |oldarr|) + Outside(nold, 0, nasize) == Needed(oldarr, nold, nasize)
  {
  }

  lemma HashPartFits(hash: Key -> nat, arr: seq<Value>, node: seq<Node>, dummy: bool, lastfree: int, rank: seq<real>,
      n: nat)
    requires Good(hash, arr, node, dummy, lastfree, rank) && |arr| <= n
    ensures Needed(arr, node, n) <= if dummy then 0 else |node|
    ensures |node| <= MAXASIZE
  {
    OutsideIs(node, 0, n);
    EntriesUsed(node, 0);
    PowMax();
    var l: nat :| l <= MAXBITS && |node| == Pow2(l);
    PowUp(l, MAXBITS);
  }

  lemma GoodSizes(hash: Key -> nat, arr: seq<Value>, node: seq<Node>, dummy: bool, lastfree: int, rank: seq<real>,
      ek: Key)
    requires Good(hash, arr, node, dummy, lastfree, rank) && Fresh(arr, node, ek)
    ensures |arr| <= MAXASIZE && Separate(arr, node, ek)
  {
  }

  lemma AllCandidates(nums: seq<int>, arr: seq<Value>, node: seq<Node>, ek: Key, nasize: int)
    requires |nums| == MAXBITS + 1 && Separate(arr, node, ek) && |arr| <= MAXASIZE
    requires forall i :: 0 <= i <= MAXBITS ==>
               nums[i] == InArray(arr, Lo(i), Pow2(i)) + InNodes(node, 0, Lo(i), Pow2(i)) + One(ek, Lo(i), Pow2(i))
    requires nasize == InArray(arr, 0, |arr|) + InNodes(node, 0, 0, MAXASIZE) + One(ek, 0, MAXASIZE)
    ensures Prefixes(nums, Counts(arr, node, ek)) && nasize == Counts(arr, node, ek)(MAXASIZE)
  {
    hide Pow2, Lo;
    CountedPrefixes(nums, arr, node, ek);
    InArraySplit(arr, 0, |arr|, MAXASIZE);
    NoArrayAbove(arr, |arr|, MAXASIZE);
  }

  lemma Sizes(arr: seq<Value>, node: seq<Node>, ek: Key, n: nat, na: int)
    requires Optimal(Counts(arr, node, ek), n, na) && Separate(arr, node, ek)
    ensures n <= MAXASIZE
    ensures InArray(arr, 0, |arr|) + Entries(node, 0) + 1 - na == Needed(arr, node, n) + if IntIn(ek, 0, n) then 0
            else 1
  {
    NeededIs(arr, node, ek, n);
    CandidatesBound(arr, node, ek, 0);
    PowMax();
    if n > 0 {
      var i :| 0 <= i <= MAXBITS && n == Pow2(i);
      PowUp(i, MAXBITS);
    }
  }

  // When the new nodes do not fit, the array part may have become longer already; but
  // then no value that was in the hash part belongs there.
  lemma GrowthKeeps(hash: Key -> nat, arr0: seq<Value>, arr: seq<Value>, node: seq<Node>, dummy: bool, lastfree: int,
      rank: seq<real>, n: nat)
    requires Good(hash, arr0, node, dummy, lastfree, rank) && arr == arr0 + Nils(n - |arr0|) && n <= MAXASIZE
    requires Needed(arr0, node, n) + 1 > MAXASIZE
    ensures Good(hash, arr, node, dummy, lastfree, rank)
    ensures forall q :: ContentOf(arr, node, q) == ContentOf(arr0, node, q)
  {
    if n > |arr0| {
      HashPartFits(hash, arr0, node, dummy, lastfree, rank, n);
      OutsideIs(node, 0, n);
      EntriesUsed(node, 0);
      assert InNodes(node, 0, 0, n) == 0;
      NoneInside(node, 0, n);
    }
  }

  lemma {:induction false} NoneInside(node: seq<Node>, from: nat, n: nat)
    requires InNodes(node, from, 0, n) == 0
    ensures forall p :: from <= p < |node| && IntIn(node[p].key, 0, n) ==> node[p].val == VNil
    decreases |node| - from
  {
    if from < |node| { NoneInside(node, from + 1, n); }
  }
}
