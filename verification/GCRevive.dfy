// Strings and open upvalues, which are found again by what they hold: a dead one is
// revived instead of making another.

module GCRevive {
  import opened GCHeap
  import opened GCInv
  import opened GCSweep
  import opened GCClose
  import opened GCWrite
  import opened GCAlloc

  // changewhite, on a dead object
  function Revived(h: Heap, i: Id): Heap {
    h.(marked := h.marked[i := White(h.white)])
  }

  lemma ReviveKeeps(h: Heap, i: Id, hash: string -> nat)
    requires Inv(h, hash) && i in h.body && Dead(h, i) && forall r :: r in AllRefs(h.body, i) ==> Live(h, r)
    ensures Inv(Revived(h, i), hash) && Live(Revived(h, i), i)
  {
    var h' := Revived(h, i);
    hide StringTable, OpenLists, RootList, NamesAreStrings, NamesBelow, AllRefs;
    assert forall j :: Live(h', j) <==> Live(h, j) || j == i;
    assert forall j :: Current(h', j) <==> Current(h, j) || j == i;
    assert h'.marked.Keys == h.marked.Keys;
    assert Roots(h') == Roots(h);
    assert Owned(h', hash);
    assert Safe(h') by { hide Roots; ReviveSafe(h, i); }
    RevivePhase(h, i);
  }

  lemma ReviveSafe(h: Heap, i: Id)
    requires Safe(h) && i in h.body && Dead(h, i) && (forall r :: r in AllRefs(h.body, i) ==> Live(h, r))
    requires Roots(Revived(h, i)) == Roots(h) && forall j :: Live(Revived(h, i), j) <==> Live(h, j) || j == i
    ensures Safe(Revived(h, i))
  {
    var h' := Revived(h, i);
    hide AllRefs, Roots, Live;
    forall j, r | j in h'.body && Live(h', j) && r in AllRefs(h'.body, j) ensures Live(h', r) {
      if j != i { assert Live(h, j) && r in AllRefs(h.body, j); }
    }
  }

  lemma RevivePhase(h: Heap, i: Id)
    requires PhaseInv(h) && i in h.body && Dead(h, i)
    ensures PhaseInv(Revived(h, i))
  {
    var h' := Revived(h, i);
    forall j | Current(h, j) ensures Current(h', j) {
    }
    assert h.phase == Pause || h.phase == Finalize ==> Current(h, i);
    assert h.phase == Propagate ==> !Dead(h, i);
    assert NeverBlack(h');
    forall n: nat | StringsSwept(h, n) ensures StringsSwept(h', n) {
      forall c, j | 0 <= c < n && c < |h'.strt| && j in h'.strt[c] ensures Current(h', j) {
        assert Current(h, j);
      }
    }
    if h.phase == Sweep {
      forall j | j in h'.swept ensures Current(h', j) {
        assert Current(h, j);
      }
      forall j, u | j in h'.swept && j in h'.body && h'.body[j].Thread? && u in h'.body[j].openupval
        ensures Current(h', u)
      {
        assert Current(h, u);
      }
    }
  }

  // ----- strings -----

  function Bucket(h: Heap, s: string, hash: string -> nat): nat
    requires |h.strt| > 0
  {
    hash(s) % |h.strt|
  }

  // newlstr: a string of new content, first in its bucket
  function NewString(h: Heap, s: string, hash: string -> nat): Heap
    requires |h.strt| > 0
  {
    var b := Bucket(h, s, hash);
    h.(body := h.body[h.brk := Str(s)], marked := h.marked[h.brk := White(h.white)], brk := h.brk + 1,
       strt := h.strt[b := [h.brk] + h.strt[b]])
  }

  lemma NewStringTable(h: Heap, s: string, hash: string -> nat)
    requires StringTable(h.body, h.strt, hash) && h.brk !in h.body
    requires forall i :: i in h.strt[Bucket(h, s, hash)] && i in h.body ==> h.body[i] != Str(s)
    ensures StringTable(NewString(h, s, hash).body, NewString(h, s, hash).strt, hash)
  {
    var h', b0 := NewString(h, s, hash), Bucket(h, s, hash);
    var id := h.brk;
    forall b, i {:trigger i in h'.strt[b]} | 0 <= b < |h'.strt| && i in h'.strt[b]
      ensures i in h'.body && h'.body[i].Str? && hash(h'.body[i].s) % |h'.strt| == b && (i == id ==> b == b0)
      ensures (i != id ==> i in h.strt[b])
    {
      if i != id || b != b0 {
        assert i in h.strt[b];
        BucketMember(h.body, h.strt, hash, b, i);
      }
    }
    forall k | k in h.strt[b0] ensures k in h.body && h.body[k] != Str(s) {
      BucketMember(h.body, h.strt, hash, b0, k);
    }
    forall b | 0 <= b < |h'.strt| ensures Distinct(h'.strt[b]) {
      BucketDistinct(h.body, h.strt, hash, b);
      if b == b0 {
        if id in h.strt[b0] { BucketMember(h.body, h.strt, hash, b0, id); }
        Prepended(h.strt[b0], id);
      }
    }
    forall i | i in h'.body && h'.body[i].Str? ensures i in h'.strt[hash(h'.body[i].s) % |h'.strt|] {
      if i != id { BucketOf(h.body, h.strt, hash, i); }
    }
    forall b, i, j | 0 <= b < |h'.strt| && i in h'.strt[b] && j in h'.strt[b] && i in h'.body && j in h'.body &&
    h'.body[i] == h'.body[j] ensures i == j {
      if i != id && j != id {
        BucketUnique(h.body, h.strt, hash, b, i, j);
      }
    }
  }

  lemma NewStringKeeps(h: Heap, s: string, hash: string -> nat)
    requires Inv(h, hash) && |h.strt| > 0
    requires forall i :: i in h.strt[Bucket(h, s, hash)] && i in h.body ==> h.body[i] != Str(s)
    ensures Inv(NewString(h, s, hash), hash) && Live(NewString(h, s, hash), h.brk)
  {
    hide Owned;
    var h' := NewString(h, s, hash);
    hide StringTable, OpenLists, RootList, NamesAreStrings, NamesBelow, Safe, AllRefs, OpenList;
    OwnedOf(h, hash);
    BrkNew(h, hash);
    NewStringOwned(h, s, hash);
    NewAllRefs(h.body, h.brk, Str(s));
    SameRootsNew(h, h');
    AllocSafe(h, h', Str(s), hash);
    AllocCurrent(h, h', hash);
    if h.phase == Propagate {
      PropagateParts(h, hash);
      StrNames(h', hash);
      AllocTri(h, h', Str(s), Excused(h), hash);
    } else {
      NewStringPhase(h, s, hash);
    }
  }

  lemma SameRootsNew(h: Heap, h': Heap)
    requires h'.main == h.main && h'.running == h.running && h'.registry == h.registry && h'.mt == h.mt
    ensures Roots(h') == Roots(h)
  {
  }

  lemma NewStringOwned(h: Heap, s: string, hash: string -> nat)
    requires Owned(h, hash) && |h.strt| > 0
    requires forall i :: i in h.strt[Bucket(h, s, hash)] && i in h.body ==> h.body[i] != Str(s)
    ensures Owned(NewString(h, s, hash), hash)
  {
    var h' := NewString(h, s, hash);
    hide StringTable, OpenLists, RootList, NamesAreStrings, NamesBelow;
    BrkNew(h, hash);
    NewStringTable(h, s, hash);
    OneMoreRoot(h.body, h.brk, s, h.swept, h.tosweep);
    OneMoreOpen(h.body, h.brk, s, h.uvhead);
    OneMoreName(h.body, h.brk, s);
  }

  lemma OneMoreRoot(body: Bodies, id: Id, s: string, swept: seq<Id>, tosweep: seq<Id>)
    requires RootList(body, swept, tosweep) && id !in body
    ensures RootList(body[id := Str(s)], swept, tosweep)
  {
  }

  lemma OneMoreOpen(body: Bodies, id: Id, s: string, uvhead: seq<Id>)
    requires OpenLists(body, uvhead) && id !in body
    ensures OpenLists(body[id := Str(s)], uvhead)
  {
    var body' := body[id := Str(s)];
    forall t | t in body' && body'[t].Thread? ensures OpenList(body', t) {
      assert OpenList(body, t);
      var l := body[t].openupval;
      forall u | u in l ensures u in body' && body'[u] == body[u] {
      }
      assert forall a :: 0 <= a < |l| ==> l[a] in l;
    }
    forall u ensures u in uvhead <==> u in body' && IsOpen(body'[u]) {
      assert u in uvhead <==> u in body && IsOpen(body[u]);
    }
  }

  lemma OneMoreName(body: Bodies, id: Id, s: string)
    requires NamesAreStrings(body) && NamesBelow(body, id) && id !in body
    ensures NamesAreStrings(body[id := Str(s)]) && NamesBelow(body[id := Str(s)], id + 1)
  {
    var body' := body[id := Str(s)];
    forall i, n | i in body' && body'[i].Proto? && n in body'[i].names ensures n < id {
      assert n in body[i].names;
    }
  }

  lemma NewStringPhase(h: Heap, s: string, hash: string -> nat)
    requires Owned(h, hash) && PhaseInv(h) && h.phase != Propagate && |h.strt| > 0
    ensures PhaseInv(NewString(h, s, hash))
  {
    var h' := NewString(h, s, hash);
    AllocCurrent(h, h', hash);
    BrkNew(h, hash);
    SweptIds(h, hash);
    hide Owned;
    assert NeverBlack(h) ==> NeverBlack(h');
    forall n: nat | StringsSwept(h, n) ensures StringsSwept(h', n) {
      forall c, i | 0 <= c < n && c < |h'.strt| && i in h'.strt[c] ensures Current(h', i) {
        if i != h.brk {
          assert i in h.strt[c];
          assert Current(h, i);
        }
      }
    }
    if h.phase == Sweep {
      forall i | i in h'.swept ensures Current(h', i) {
        assert Current(h, i);
      }
      forall i, u | i in h'.swept && i in h'.body && h'.body[i].Thread? && u in h'.body[i].openupval
        ensures Current(h', u)
      {
        assert Current(h, u);
      }
    }
  }

  // ----- the table of strings at another size -----

  // The strings of the first n buckets, chained anew; later ones come first in a chain.
  function Rehash(body: Bodies, l: seq<Id>, strt: seq<seq<Id>>, hash: string -> nat): (t: seq<seq<Id>>)
    requires |strt| > 0 && forall i :: i in l ==> i in body && body[i].Str?
    ensures |t| == |strt|
    decreases l
  {
    if l == [] then strt
    else
      var x := l[0];
      assert x in l;
      var b := hash(body[x].s) % |strt|;
      Rehash(body, l[1..], strt[b := [x] + strt[b]], hash)
  }

  predicate HashesTo(body: Bodies, i: Id, hash: string -> nat, n: nat, b: int)
    requires n > 0
  {
    i in body && body[i].Str? && hash(body[i].s) % n == b
  }

  lemma {:induction false} RehashIn(body: Bodies, l: seq<Id>, strt: seq<seq<Id>>, hash: string -> nat, b: nat, i: Id)
    requires |strt| > 0 && (forall j :: j in l ==> j in body && body[j].Str?) && b < |strt|
    ensures i in Rehash(body, l, strt, hash)[b] <==> i in strt[b] || (i in l && HashesTo(body, i, hash, |strt|, b))
    decreases l
  {
    if l != [] {
      var x := l[0];
      assert x in l;
      var c := hash(body[x].s) % |strt|;
      var strt1 := strt[c := [x] + strt[c]];
      assert l == [x] + l[1..];
      RehashIn(body, l[1..], strt1, hash, b, i);
      if b == c {
        assert strt1[b] == [x] + strt[b];
      } else {
        assert strt1[b] == strt[b];
      }
    }
  }

  lemma {:induction false} RehashDistinct(body: Bodies, l: seq<Id>, strt: seq<seq<Id>>, hash: string -> nat, b: nat)
    requires |strt| > 0 && (forall j :: j in l ==> j in body && body[j].Str?) && Distinct(l) && b < |strt|
    requires Distinct(strt[b]) && forall i :: i in strt[b] ==> i !in l
    ensures Distinct(Rehash(body, l, strt, hash)[b])
    decreases l
  {
    if l != [] {
      var x := l[0];
      assert x in l;
      TailDistinct(l);
      var c := hash(body[x].s) % |strt|;
      var strt1 := strt[c := [x] + strt[c]];
      assert l == [x] + l[1..];
      if b == c {
        assert strt1[b] == [x] + strt[b];
        Prepended(strt[b], x);
      } else {
        assert strt1[b] == strt[b];
      }
      RehashDistinct(body, l[1..], strt1, hash, b);
    }
  }

  // The strings of the first n buckets, moved one bucket at a time.
  function Moved(body: Bodies, strt0: seq<seq<Id>>, n: nat, strt: seq<seq<Id>>, hash: string -> nat): (t: seq<seq<Id>>)
    requires n <= |strt0| && |strt| > 0
    requires forall b, i {:trigger i in strt0[b]} :: 0 <= b < |strt0| && i in strt0[b] ==> i in body && body[i].Str?
    ensures |t| == |strt|
    decreases n
  {
    if n == 0 then strt else Rehash(body, strt0[n - 1], Moved(body, strt0, n - 1, strt, hash), hash)
  }

  lemma {:induction false} MovedIn(body: Bodies, strt0: seq<seq<Id>>, n: nat, strt: seq<seq<Id>>, hash: string -> nat,
      b: nat, i: Id)
    requires n <= |strt0| && |strt| > 0 && StringTable(body, strt0, hash)
    requires (forall c :: 0 <= c < |strt| ==> strt[c] == []) && b < |strt|
    requires forall c, j {:trigger j in strt0[c]} :: 0 <= c < |strt0| && j in strt0[c] ==> j in body && body[j].Str?
    ensures i in Moved(body, strt0, n, strt, hash)[b] <==>
            HashesTo(body, i, hash, |strt|, b) && hash(body[i].s) % |strt0| < n
    decreases n
  {
    if n > 0 {
      MovedIn(body, strt0, n - 1, strt, hash, b, i);
      RehashIn(body, strt0[n - 1], Moved(body, strt0, n - 1, strt, hash), hash, b, i);
      InBucket(body, strt0, hash, n - 1, i);
    }
  }

  lemma InBucket(body: Bodies, strt: seq<seq<Id>>, hash: string -> nat, b: nat, i: Id)
    requires StringTable(body, strt, hash) && b < |strt|
    ensures i in strt[b] <==> HashesTo(body, i, hash, |strt|, b)
  {
    if i in strt[b] { BucketMember(body, strt, hash, b, i); }
    if i in body && body[i].Str? { BucketOf(body, strt, hash, i); }
  }

  lemma {:induction false} MovedDistinct(body: Bodies, strt0: seq<seq<Id>>, n: nat, strt: seq<seq<Id>>,
      hash: string -> nat, b: nat)
    requires n <= |strt0| && |strt| > 0 && StringTable(body, strt0, hash)
    requires (forall c :: 0 <= c < |strt| ==> strt[c] == []) && b < |strt|
    requires forall c, j {:trigger j in strt0[c]} :: 0 <= c < |strt0| && j in strt0[c] ==> j in body && body[j].Str?
    ensures Distinct(Moved(body, strt0, n, strt, hash)[b])
    decreases n
  {
    hide StringTable;
    if n > 0 {
      var t1 := Moved(body, strt0, n - 1, strt, hash);
      MovedDistinct(body, strt0, n - 1, strt, hash, b);
      BucketDistinct(body, strt0, hash, n - 1);
      forall i | i in t1[b] ensures i !in strt0[n - 1] {
        MovedIn(body, strt0, n - 1, strt, hash, b, i);
        InBucket(body, strt0, hash, n - 1, i);
      }
      RehashDistinct(body, strt0[n - 1], t1, hash, b);
    }
  }

  // luaS_resize keeps the table: every string is in the bucket of its hash again.
  lemma ResizedTable(body: Bodies, strt: seq<seq<Id>>, empty: seq<seq<Id>>, hash: string -> nat)
    requires StringTable(body, strt, hash) && |empty| > 0 && (forall c :: 0 <= c < |empty| ==> empty[c] == [])
    requires forall c, j {:trigger j in strt[c]} :: 0 <= c < |strt| && j in strt[c] ==> j in body && body[j].Str?
    ensures StringTable(body, Moved(body, strt, |strt|, empty, hash), hash)
  {
    var t := Moved(body, strt, |strt|, empty, hash);
    forall b | 0 <= b < |t| ensures Distinct(t[b]) {
      MovedDistinct(body, strt, |strt|, empty, hash, b);
    }
    forall b, i {:trigger i in t[b]} | 0 <= b < |t| && i in t[b]
      ensures HashesTo(body, i, hash, |t|, b) && i in strt[hash(body[i].s) % |strt|]
    {
      MovedIn(body, strt, |strt|, empty, hash, b, i);
      BucketOf(body, strt, hash, i);
    }
    forall i | i in body && body[i].Str? ensures i in t[hash(body[i].s) % |t|] {
      MovedIn(body, strt, |strt|, empty, hash, hash(body[i].s) % |t|, i);
    }
    forall b, i, j | 0 <= b < |t| && i in t[b] && j in t[b] && i in body && j in body && body[i] == body[j]
      ensures i == j
    {
      assert HashesTo(body, i, hash, |t|, b) && HashesTo(body, j, hash, |t|, b);
      BucketUnique(body, strt, hash, hash(body[i].s) % |strt|, i, j);
    }
    hide StringTable;
  }

  lemma ResizedKeeps(h: Heap, t: seq<seq<Id>>, hash: string -> nat)
    requires Inv(h, hash) && h.phase != SweepString && StringTable(h.body, t, hash)
    ensures Inv(h.(strt := t), hash)
  {
    var h' := h.(strt := t);
    StringIds(h, hash);
    AllStringsSwept(h, t, hash);
    hide StringTable, OpenLists, RootList, NamesAreStrings, NamesBelow, AllRefs, Roots, Tri;
    SameRootsNew(h, h');
    assert forall i :: Live(h', i) <==> Live(h, i);
    assert forall i :: Current(h', i) <==> Current(h, i);
    assert Owned(h', hash);
    assert Safe(h');
    if h.phase == Sweep {
      assert NeverBlack(h');
      forall i | i in h'.swept ensures Current(h', i) {
        assert Current(h, i);
      }
      forall i, u | i in h'.swept && i in h'.body && h'.body[i].Thread? && u in h'.body[i].openupval
        ensures Current(h', u)
      {
        assert Current(h, u);
      }
    }
    assert Excused(h') == Excused(h);
  }

  // The chains after luaS_resize, from empty ones.
  lemma ResizedInv(h: Heap, empty: seq<seq<Id>>, hash: string -> nat)
    requires Inv(h, hash) && h.phase != SweepString && |empty| > 0
    requires forall c :: 0 <= c < |empty| ==> empty[c] == []
    requires forall b, i {:trigger i in h.strt[b]} :: 0 <= b < |h.strt| && i in h.strt[b] ==>
               i in h.body && h.body[i].Str?
    ensures Inv(h.(strt := Moved(h.body, h.strt, |h.strt|, empty, hash)), hash)
  {
    hide StringTable, Safe, PhaseInv, Moved;
    ResizedTable(h.body, h.strt, empty, hash);
    ResizedKeeps(h, Moved(h.body, h.strt, |h.strt|, empty, hash), hash);
  }

  lemma AllStringsSwept(h: Heap, t: seq<seq<Id>>, hash: string -> nat)
    requires Owned(h, hash) && StringTable(h.body, t, hash) && (h.phase == Sweep ==> StringsSwept(h, |h.strt|))
    ensures h.phase == Sweep ==> StringsSwept(h.(strt := t), |t|)
  {
    if h.phase == Sweep {
      forall b, i | 0 <= b < |t| && i in t[b] ensures Current(h.(strt := t), i) {
        BucketMember(h.body, t, hash, b, i);
        BucketOf(h.body, h.strt, hash, i);
        var c := hash(h.body[i].s) % |h.strt|;
        assert i in h.strt[c] && 0 <= c < |h.strt|;
        assert Current(h, i);
      }
    }
  }
}
