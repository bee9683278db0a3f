// The sweep phases: what freeing dead objects and whitening the others keeps.

module GCSweep {
  import opened GCHeap
  import opened GCInv

  // A list without the elements of d.
  function Keep(l: seq<Id>, d: set<Id>): (l': seq<Id>)
    ensures forall i :: i in l' <==> i in l && i !in d
  {
    if l == [] then [] else (if l[0] in d then [] else [l[0]]) + Keep(l[1..], d)
  }

  lemma {:induction false} KeepDistinct(l: seq<Id>, d: set<Id>)
    requires Distinct(l)
    ensures Distinct(Keep(l, d))
    decreases l
  {
    if l != [] {
      TailDistinct(l);
      KeepDistinct(l[1..], d);
      var rest := Keep(l[1..], d);
      assert l[0] !in rest;
      forall a, b | 0 <= a < b < |[l[0]] + rest| ensures ([l[0]] + rest)[a] != ([l[0]] + rest)[b] {
        if a == 0 { assert rest[b - 1] in rest; }
      }
    }
  }

  lemma TailDistinct(l: seq<Id>)
    requires l != [] && Distinct(l)
    ensures Distinct(l[1..]) && l[0] !in l[1..]
  {
    forall a, b | 0 <= a < b < |l[1..]| ensures l[1..][a] != l[1..][b] {
      assert l[1..][a] == l[a + 1] && l[1..][b] == l[b + 1];
    }
    forall a | 0 <= a < |l[1..]| ensures l[1..][a] != l[0] {
      assert l[1..][a] == l[a + 1];
    }
  }

  // Keep is in order: any relation between successive elements that is transitive stays.
  lemma {:induction false} KeepOrder(l: seq<Id>, d: set<Id>, f: Id -> int)
    requires forall a, b :: 0 <= a < b < |l| ==> f(l[a]) > f(l[b])
    ensures forall a, b :: 0 <= a < b < |Keep(l, d)| ==> f(Keep(l, d)[a]) > f(Keep(l, d)[b])
    decreases l
  {
    if l != [] {
      var rest := Keep(l[1..], d);
      forall a, b | 0 <= a < b < |l[1..]| ensures f(l[1..][a]) > f(l[1..][b]) {
        assert l[1..][a] == l[a + 1] && l[1..][b] == l[b + 1];
      }
      KeepOrder(l[1..], d, f);
      forall i | i in rest ensures f(l[0]) > f(i) {
        assert i in l[1..];
        var k :| 0 <= k < |l[1..]| && l[1..][k] == i;
        assert l[1..][k] == l[k + 1];
      }
      var whole := [l[0]] + rest;
      forall a, b | 0 <= a < b < |whole| ensures f(whole[a]) > f(whole[b]) {
        if a == 0 { assert rest[b - 1] in rest; }
      }
    }
  }

  // One element at a time.
  lemma KeepOne(l: seq<Id>, d: set<Id>, u: Id)
    ensures Keep(l + [u], d) == Keep(l, d) + if u in d then [] else [u]
  {
    if l != [] {
      assert (l + [u])[1..] == l[1..] + [u];
      KeepOne(l[1..], d, u);
    } else {
      assert (l + [u]) == [u] && [u][1..] == [];
    }
  }

  function Whitened(marked: Colors, l: seq<Id>, w: bool): Colors {
    map i | i in marked :: if i in l then White(w) else marked[i]
  }

  // What of a list goes: the dead that are not fixed.
  function DeadIn(h: Heap, l: seq<Id>): set<Id> {
    set i | i in l && Dead(h, i) && i !in h.fixed
  }

  // After a sweep: D is gone, and survivors keep their colour or are white again.
  ghost predicate SweptTo(h: Heap, h': Heap, d: set<Id>) {
    && (forall i :: i in d ==> Dead(h, i) && i !in h.fixed)
    && h'.white == h.white && h'.fixed == h.fixed && h'.main == h.main && h'.running == h.running
    && h'.registry == h.registry && h'.mt == h.mt && h'.marked.Keys == h'.body.Keys
    && (forall i :: i in h'.body <==> i in h.body && i !in d)
    && (forall i :: i in h'.body && i in h.marked ==>
          h'.marked[i] == h.marked[i] || (h'.marked[i] == White(h.white) && (Dead(h, i) ==> i in h.fixed)))
  }

  // Nothing visible about the survivors changes.
  ghost predicate SweptIntact(h: Heap, h': Heap) {
    forall i {:trigger h'.body[i]} :: i in h'.body && i in h.body ==>
      (h'.body[i] == h.body[i] ||
       (h.body[i].Thread? && h'.body[i].Thread? && h'.body[i] == h.body[i].(openupval := h'.body[i].openupval))) &&
      (IsOpen(h.body[i]) ==> h.body[i].cell.th in h'.body && h.body[i].cell.th in h.body)
  }

  lemma SweptValue(h: Heap, h': Heap, i: Id)
    requires SweptIntact(h, h') && i in h'.body && i in h.body && IsOpen(h.body[i])
    ensures h'.body[i] == h.body[i] && UpvalValue(h'.body, h'.body[i].cell) == UpvalValue(h.body, h.body[i].cell)
  {
    var th := h.body[i].cell.th;
    assert th in h'.body && (h'.body[th] == h.body[th] || h.body[th].Thread?);
  }

  lemma SweptOne(h: Heap, h': Heap, d: set<Id>, i: Id)
    requires SweptTo(h, h', d) && SweptIntact(h, h') && i in h.body && Live(h, i)
    ensures i in h'.body && Live(h', i) && Intact(h.body, h'.body, i) && AllRefs(h'.body, i) == AllRefs(h.body, i)
  {
    assert i !in d;
    if IsOpen(h.body[i]) { SweptValue(h, h', i); }
  }

  lemma SweptSafe(h: Heap, h': Heap, d: set<Id>, hash: string -> nat)
    requires Owned(h, hash) && Safe(h) && SweptTo(h, h', d) && SweptIntact(h, h')
    ensures Safe(h') && KeepsLive(h, h')
  {
    FixedAreStrings(h, hash);
    hide Owned, AllRefs, SweptIntact, Intact, Roots;
    SameRoots(h, h', d);
    forall i | i in h.body && Live(h, i) ensures Intact(h.body, h'.body, i) {
      SweptOne(h, h', d, i);
    }
    forall i | i in Roots(h') ensures Live(h', i) {
      SweptOne(h, h', d, i);
    }
    forall i, r | i in h'.body && Live(h', i) && r in AllRefs(h'.body, i) ensures Live(h', r) {
      if Live(h, i) {
        SweptOne(h, h', d, i);
        SweptOne(h, h', d, r);
      } else {
        FixedRefs(h, h', i, d);
      }
    }
  }

  lemma SameRoots(h: Heap, h': Heap, d: set<Id>)
    requires SweptTo(h, h', d)
    ensures Roots(h') == Roots(h)
  {
  }

  // A dead object that a sweep leaves alive is a fixed string.
  lemma FixedRefs(h: Heap, h': Heap, i: Id, d: set<Id>)
    requires SweptTo(h, h', d) && SweptIntact(h, h') && i in h'.body && Live(h', i) && !Live(h, i)
    requires h.body.Keys == h.marked.Keys && forall i :: i in h.fixed ==> i in h.body && h.body[i].Str?
    ensures AllRefs(h'.body, i) == {}
  {
    assert i in h.body && Dead(h, i);
    assert h'.marked[i] != h.marked[i];
    assert i in h.fixed;
  }

  lemma FixedAreStrings(h: Heap, hash: string -> nat)
    requires Owned(h, hash)
    ensures h.body.Keys == h.marked.Keys && forall i :: i in h.fixed ==> i in h.body && h.body[i].Str?
  {
  }

  // ----- a bucket of the string table -----

  function SweepBucket(h: Heap, b: nat): Heap
    requires b < |h.strt|
  {
    var d := DeadIn(h, h.strt[b]);
    var l := Keep(h.strt[b], d);
    h.(body := h.body - d, marked := Whitened(h.marked - d, l, h.white), strt := h.strt[b := l])
  }

  lemma BucketSwept(h: Heap, b: nat, hash: string -> nat)
    requires Owned(h, hash) && b < |h.strt|
    ensures SweptTo(h, SweepBucket(h, b), DeadIn(h, h.strt[b])) && SweptIntact(h, SweepBucket(h, b))
    ensures forall i :: i in DeadIn(h, h.strt[b]) ==> i in h.body && h.body[i].Str?
  {
    var h', d := SweepBucket(h, b), DeadIn(h, h.strt[b]);
    OpenThreads(h, hash);
    BucketStrings(h, b, hash);
    hide Owned;
    forall i | i in h'.body ensures h'.body[i] == h.body[i] {
    }
    forall i | i in h'.body && i in h.marked
      ensures h'.marked[i] == h.marked[i] || (h'.marked[i] == White(h.white) && (Dead(h, i) ==> i in h.fixed))
    {
      if i in h.strt[b] { assert i !in d; }
    }
  }

  lemma BucketStrings(h: Heap, b: nat, hash: string -> nat)
    requires Owned(h, hash) && b < |h.strt|
    ensures h.body.Keys == h.marked.Keys && forall i :: i in h.strt[b] ==> i in h.body && h.body[i].Str?
  {
    hide StringTable, OpenLists, RootList, NamesAreStrings, NamesBelow;
    forall i | i in h.strt[b] ensures i in h.body && h.body[i].Str? {
      BucketMember(h.body, h.strt, hash, b, i);
    }
  }

  lemma OpenThreads(h: Heap, hash: string -> nat)
    requires Owned(h, hash)
    ensures forall u :: u in h.body && IsOpen(h.body[u]) ==>
              var th := h.body[u].cell.th; th in h.body && h.body[th].Thread? && u in h.body[th].openupval
  {
  }

  lemma FewerRoot(body: Bodies, body': Bodies, swept: seq<Id>, tosweep: seq<Id>)
    requires RootList(body, swept, tosweep)
    requires forall i :: i in body && OnRootList(body[i]) ==> i in body'
    requires forall i {:trigger body'[i]} :: i in body' ==> i in body && OnRootList(body'[i]) == OnRootList(body[i])
    ensures RootList(body', swept, tosweep)
  {
    forall i | i in swept || i in tosweep ensures i in body' && OnRootList(body'[i]) {
      assert i in body && OnRootList(body[i]);
    }
  }

  lemma BucketMember(body: Bodies, strt: seq<seq<Id>>, hash: string -> nat, b: nat, i: Id)
    requires StringTable(body, strt, hash) && b < |strt| && i in strt[b]
    ensures i in body && body[i].Str? && hash(body[i].s) % |strt| == b
  {
  }

  lemma BucketOf(body: Bodies, strt: seq<seq<Id>>, hash: string -> nat, i: Id)
    requires StringTable(body, strt, hash) && i in body && body[i].Str?
    ensures |strt| > 0 && i in strt[hash(body[i].s) % |strt|]
  {
  }

  lemma BucketUnique(body: Bodies, strt: seq<seq<Id>>, hash: string -> nat, b: nat, i: Id, j: Id)
    requires StringTable(body, strt, hash) && b < |strt| && i in strt[b] && j in strt[b]
    ensures i in body && j in body && (body[i] == body[j] ==> i == j)
  {
    BucketMember(body, strt, hash, b, i);
    BucketMember(body, strt, hash, b, j);
  }

  lemma BucketDistinct(body: Bodies, strt: seq<seq<Id>>, hash: string -> nat, b: nat)
    requires StringTable(body, strt, hash) && b < |strt|
    ensures Distinct(strt[b])
  {
  }

  // A table over fewer strings: a string that goes leaves its bucket, in order.
  lemma FewerStrings(body: Bodies, body': Bodies, strt: seq<seq<Id>>, strt': seq<seq<Id>>, hash: string -> nat)
    requires StringTable(body, strt, hash) && |strt'| == |strt|
    requires forall i {:trigger body'[i]} :: i in body' && body'[i].Str? ==> i in body && body'[i] == body[i]
    requires forall b, i {:trigger i in strt'[b]} :: 0 <= b < |strt'| && i in strt'[b] ==>
               i in strt[b] && i in body && i in body' && body'[i] == body[i]
    requires forall b, i {:trigger i in strt[b]} :: 0 <= b < |strt'| && i in strt[b] && i in body' ==> i in strt'[b]
    requires forall b :: 0 <= b < |strt'| ==> Distinct(strt'[b])
    ensures StringTable(body', strt', hash)
  {
    forall b, i | 0 <= b < |strt'| && i in strt'[b]
      ensures i in body' && body'[i].Str? && hash(body'[i].s) % |strt'| == b
    {
      BucketMember(body, strt, hash, b, i);
    }
    forall i | i in body' && body'[i].Str? ensures i in strt'[hash(body'[i].s) % |strt'|] {
      BucketOf(body, strt, hash, i);
    }
    forall b, i, j | 0 <= b < |strt'| && i in strt'[b] && j in strt'[b] && i in body' && j in body' &&
    body'[i] == body'[j] ensures i == j {
      BucketUnique(body, strt, hash, b, i, j);
    }
    hide StringTable;
  }

  lemma BucketTable(h: Heap, b: nat, hash: string -> nat)
    requires StringTable(h.body, h.strt, hash) && b < |h.strt|
    ensures StringTable(SweepBucket(h, b).body, SweepBucket(h, b).strt, hash)
  {
    hide StringTable;
    var h', d := SweepBucket(h, b), DeadIn(h, h.strt[b]);
    forall c | 0 <= c < |h'.strt| ensures Distinct(h'.strt[c]) {
      BucketDistinct(h.body, h.strt, hash, c);
      BucketDistinct(h.body, h.strt, hash, b);
      KeepDistinct(h.strt[b], d);
    }
    forall c, i | 0 <= c < |h'.strt| && i in h.strt[c] ensures i in h.body && (i in d ==> c == b) {
      BucketMember(h.body, h.strt, hash, c, i);
      if i in d { BucketMember(h.body, h.strt, hash, b, i); }
    }
    forall c, i | 0 <= c < |h'.strt| && i in h'.strt[c]
      ensures i in h.strt[c] && i in h'.body && h'.body[i] == h.body[i]
    {
      assert i in h.strt[c];
    }
    forall c, i | 0 <= c < |h'.strt| && i in h.strt[c] && i in h'.body ensures i in h'.strt[c] {
    }
    FewerStrings(h.body, h'.body, h.strt, h'.strt, hash);
  }

  lemma BucketOpen(h: Heap, b: nat, hash: string -> nat)
    requires OpenLists(h.body, h.uvhead) && StringTable(h.body, h.strt, hash) && b < |h.strt|
    ensures OpenLists(SweepBucket(h, b).body, h.uvhead)
  {
    var h', d := SweepBucket(h, b), DeadIn(h, h.strt[b]);
    assert forall i :: i in d ==> i in h.strt[b] && h.body[i].Str?;
    hide StringTable;
    forall th | th in h'.body && h'.body[th].Thread? ensures OpenList(h'.body, th) {
      assert OpenList(h.body, th);
      var l := h.body[th].openupval;
      forall u | u in l ensures u in h'.body && h'.body[u] == h.body[u] {
        assert IsOpen(h.body[u]);
      }
      assert forall a :: 0 <= a < |l| ==> l[a] in l;
    }
    forall u ensures u in h.uvhead <==> u in h'.body && IsOpen(h'.body[u]) {
      assert u in h.uvhead <==> u in h.body && IsOpen(h.body[u]);
    }
  }

  lemma BucketOwned(h: Heap, b: nat, hash: string -> nat)
    requires Owned(h, hash) && b < |h.strt|
    ensures Owned(SweepBucket(h, b), hash)
  {
    var h', d := SweepBucket(h, b), DeadIn(h, h.strt[b]);
    BucketStrings(h, b, hash);
    BucketTable(h, b, hash);
    BucketOpen(h, b, hash);
    FewerRoot(h.body, h'.body, h.swept, h.tosweep);
    BucketNames(h, b);
    hide RootList, StringTable, OpenLists, NamesAreStrings;
    assert h'.body.Keys == h'.marked.Keys;
  }

  lemma BucketNames(h: Heap, b: nat)
    requires NamesAreStrings(h.body) && b < |h.strt|
    ensures NamesAreStrings(SweepBucket(h, b).body)
  {
  }

  // One step of the string sweep.
  function SweepStringStep(h: Heap): Heap
    requires h.sweepstr < |h.strt|
  {
    var h1 := SweepBucket(h, h.sweepstr);
    h1.(sweepstr := h.sweepstr + 1, phase := if h.sweepstr + 1 >= |h.strt| then Sweep else SweepString)
  }

  lemma BucketColors(h: Heap, b: nat, hash: string -> nat)
    requires StringTable(h.body, h.strt, hash) && h.body.Keys == h.marked.Keys && b < |h.strt| && StringsSwept(h, b)
    requires NeverBlack(h)
    ensures StringsSwept(SweepBucket(h, b), b + 1) && NeverBlack(SweepBucket(h, b))
  {
    var h', d := SweepBucket(h, b), DeadIn(h, h.strt[b]);
    forall c, i | 0 <= c < b + 1 && c < |h'.strt| && i in h'.strt[c] ensures Current(h', i) {
      assert i in h.strt[c] && i in h.body;
      if c < b {
        assert Current(h, i);
        assert i !in d;
      }
    }
  }

  lemma SweepStringKeeps(h: Heap, hash: string -> nat)
    requires Inv(h, hash) && h.phase == SweepString
    ensures Inv(SweepStringStep(h), hash) && KeepsLive(h, SweepStringStep(h))
    ensures SweptTo(h, SweepStringStep(h), DeadIn(h, h.strt[h.sweepstr]))
  {
    hide StringTable, KeepsLive, SweptTo;
    var h1, h', d := SweepBucket(h, h.sweepstr), SweepStringStep(h), DeadIn(h, h.strt[h.sweepstr]);
    BucketColors(h, h.sweepstr, hash);
    BucketSwept(h, h.sweepstr, hash);
    BucketOwned(h, h.sweepstr, hash);
    SweptSafe(h, h1, d, hash);
    assert h1.swept == [] && |h1.strt| == |h.strt|;
    hide RootList, StringTable, OpenLists, NamesAreStrings, SweepBucket, DeadIn, AllRefs;
    OtherState(h1, h', hash);
    SameColors(h1, h', h.sweepstr + 1);
    SameSwept(h, h1, h', d);
  }

  lemma SameSwept(h: Heap, h1: Heap, h': Heap, d: set<Id>)
    requires h' == h1.(phase := h'.phase, sweepstr := h'.sweepstr) && KeepsLive(h, h1) && SweptTo(h, h1, d)
    ensures KeepsLive(h, h') && SweptTo(h, h', d)
  {
  }

  lemma SameColors(h: Heap, h': Heap, n: nat)
    requires h' == h.(phase := h'.phase, sweepstr := h'.sweepstr, gray := h'.gray, grayagain := h'.grayagain)
    requires StringsSwept(h, n) && NeverBlack(h)
    ensures StringsSwept(h', n) && NeverBlack(h')
  {
    assert h'.strt == h.strt && h'.marked == h.marked && h'.body == h.body && h'.white == h.white;
    forall b, i | 0 <= b < n && b < |h'.strt| && i in h'.strt[b] ensures Current(h', i) {
      assert Current(h, i);
    }
  }

  // Positions, phase and gray lists do not matter to what is owned or alive.
  lemma OtherState(h: Heap, h': Heap, hash: string -> nat)
    requires h' == h.(phase := h'.phase, sweepstr := h'.sweepstr, gray := h'.gray, grayagain := h'.grayagain)
    requires Owned(h, hash) && Safe(h)
    ensures Owned(h', hash) && Safe(h')
    ensures forall i :: Live(h', i) <==> Live(h, i)
  {
    hide RootList, StringTable, OpenLists, NamesAreStrings, AllRefs;
    assert Roots(h') == Roots(h);
  }

  // ----- the open upvalues of a thread -----

  function LevelOf(body: Bodies, u: Id): int {
    if u in body && IsOpen(body[u]) then body[u].cell.level else -1
  }

  function SweepUpvals(h: Heap, th: Id): Heap
    requires th in h.body && h.body[th].Thread?
  {
    var d := DeadIn(h, h.body[th].openupval);
    var l := Keep(h.body[th].openupval, d);
    h.(body := (h.body - d)[th := h.body[th].(openupval := l)], marked := Whitened(h.marked - d, l, h.white),
       uvhead := Keep(h.uvhead, d))
  }

  // The facts about one thread's list.
  lemma ThreadList(h: Heap, th: Id, hash: string -> nat)
    requires Owned(h, hash) && th in h.body && h.body[th].Thread?
    ensures h.body.Keys == h.marked.Keys && OpenList(h.body, th)
    ensures forall u :: u in h.body[th].openupval ==>
              u in h.body && IsOpen(h.body[u]) && u != th && h.body[u].cell.th == th && u !in h.fixed
  {
    assert OpenList(h.body, th);
  }

  lemma UpvalsSwept(h: Heap, th: Id, hash: string -> nat)
    requires Owned(h, hash) && th in h.body && h.body[th].Thread?
    ensures var h', d := SweepUpvals(h, th), DeadIn(h, h.body[th].openupval);
            SweptTo(h, h', d) && SweptIntact(h, h') && th in h'.body && th in h'.marked && th in h.marked &&
            h'.marked[th] == h.marked[th] &&
            forall u :: u in h'.body[th].openupval ==> Current(h', u)
  {
    var d, l := DeadIn(h, h.body[th].openupval), h.body[th].openupval;
    ThreadList(h, th, hash);
    OpenThreads(h, hash);
    hide Owned, OpenList;
    forall u | u in d ensures u in h.body && IsOpen(h.body[u]) && Dead(h, u) && u !in h.fixed {
    }
    UpvalsColors(h, th, d);
    UpvalsIntact(h, th, d);
  }

  lemma UpvalsColors(h: Heap, th: Id, d: set<Id>)
    requires th in h.body && h.body[th].Thread? && h.body.Keys == h.marked.Keys && d == DeadIn(h, h.body[th].openupval)
    requires forall u :: u in h.body[th].openupval ==> u in h.body && u != th && u !in h.fixed
    ensures SweptTo(h, SweepUpvals(h, th), d) && th in SweepUpvals(h, th).body
    ensures SweepUpvals(h, th).marked[th] == h.marked[th]
    ensures var h' := SweepUpvals(h, th); forall u :: u in h'.body[th].openupval ==> Current(h', u)
  {
    var h', l := SweepUpvals(h, th), h.body[th].openupval;
    assert th !in d && th !in l;
    forall i | i in h'.body && i in h.marked
      ensures h'.marked[i] == h.marked[i] || (h'.marked[i] == White(h.white) && (Dead(h, i) ==> i in h.fixed))
    {
      assert i !in d;
    }
  }

  lemma UpvalsIntact(h: Heap, th: Id, d: set<Id>)
    requires th in h.body && h.body[th].Thread? && d == DeadIn(h, h.body[th].openupval)
    requires forall u :: u in d ==> u in h.body && IsOpen(h.body[u])
    requires forall u :: u in h.body && IsOpen(h.body[u]) ==>
               h.body[u].cell.th in h.body && h.body[h.body[u].cell.th].Thread?
    ensures SweptIntact(h, SweepUpvals(h, th))
  {
    var h' := SweepUpvals(h, th);
    hide DeadIn;
    forall i | i in h'.body && i in h.body && IsOpen(h.body[i]) ensures h.body[i].cell.th in h'.body {
      assert h.body[i].cell.th !in d;
    }
  }

  lemma UpvalsOpen(h: Heap, th: Id, hash: string -> nat)
    requires Owned(h, hash) && th in h.body && h.body[th].Thread?
    ensures OpenLists(SweepUpvals(h, th).body, SweepUpvals(h, th).uvhead)
  {
    hide Keep, Dead, StringTable, Whitened, RootList, NamesBelow, Distinct;
    var h', d := SweepUpvals(h, th), DeadIn(h, h.body[th].openupval);
    var b, b' := h.body, h'.body;
    ThreadList(h, th, hash);
    KeepDistinct(h.uvhead, d);
    forall u | u in d ensures u in b && IsOpen(b[u]) && b[u].cell.th == th {
    }
    forall i | i in b' && i != th ensures i in b && b'[i] == b[i] {
    }
    forall t | t in b' && b'[t].Thread? ensures OpenList(b', t) {
      assert OpenList(b, t);
      var l := b[t].openupval;
      forall u | u in l ensures u in b && IsOpen(b[u]) && b[u].cell.th == t {
      }
      if t == th {
        LevelsOf(b, th);
        KeepOrder(l, d, u => LevelOf(b, u));
        KeptList(b, b', th, d);
      } else {
        OtherList(b, b', th, d, t);
      }
    }
    forall u | u in b' && IsOpen(b'[u])
      ensures var t := b'[u].cell.th; t in b' && b'[t].Thread? && u in b'[t].openupval
    {
      assert b'[u] == b[u];
      var t := b[u].cell.th;
      assert t in b && b[t].Thread? && u in b[t].openupval;
    }
    forall u ensures u in h'.uvhead <==> u in b' && IsOpen(b'[u]) {
      assert u in h.uvhead <==> u in b && IsOpen(b[u]);
    }
  }

  lemma LevelsOf(body: Bodies, th: Id)
    requires th in body && body[th].Thread? && OpenList(body, th)
    ensures var l := body[th].openupval; forall a, b :: 0 <= a < b < |l| ==> LevelOf(body, l[a]) > LevelOf(body, l[b])
  {
    var l := body[th].openupval;
    assert forall a :: 0 <= a < |l| ==> l[a] in l;
  }

  lemma KeptList(b: Bodies, b': Bodies, th: Id, d: set<Id>)
    requires th in b && b[th].Thread? && OpenList(b, th) && th in b'
    requires b'[th] == b[th].(openupval := Keep(b[th].openupval, d))
    requires forall u :: u in b[th].openupval && u !in d ==> u in b' && b'[u] == b[u]
    requires var l := Keep(b[th].openupval, d); forall i, j :: 0 <= i < j < |l| ==> LevelOf(b, l[i]) > LevelOf(b, l[j])
    ensures OpenList(b', th)
  {
    var l := b'[th].openupval;
    forall u | u in l
      ensures u in b' && IsOpen(b'[u]) && b'[u].cell.th == th && b'[u].cell.level < b'[th].top
      ensures LevelOf(b, u) == b'[u].cell.level
    {
      assert u in b[th].openupval && u !in d;
    }
    assert forall a :: 0 <= a < |l| ==> l[a] in l;
  }

  lemma OtherList(b: Bodies, b': Bodies, th: Id, d: set<Id>, t: Id)
    requires t in b && b[t].Thread? && OpenList(b, t) && t != th && t in b' && b'[t] == b[t]
    requires forall u :: u in d ==> u in b && IsOpen(b[u]) && b[u].cell.th == th
    requires forall i :: i in b && i !in d && i != th ==> i in b' && b'[i] == b[i]
    requires th in b && b[th].Thread?
    ensures OpenList(b', t)
  {
    var l := b[t].openupval;
    forall u | u in l ensures u in b' && b'[u] == b[u] {
      assert IsOpen(b[u]) && b[u].cell.th == t;
    }
    assert forall a :: 0 <= a < |l| ==> l[a] in l;
  }

  lemma UpvalsOwned(h: Heap, th: Id, hash: string -> nat)
    requires Owned(h, hash) && th in h.body && h.body[th].Thread?
    ensures Owned(SweepUpvals(h, th), hash)
  {
    hide OpenList, OpenLists, RootList, StringTable, NamesAreStrings, NamesBelow, Keep, DeadIn;
    var h', d := SweepUpvals(h, th), DeadIn(h, h.body[th].openupval);
    DeadUpvals(h, th, hash);
    ThreadList(h, th, hash);
    UpvalsOpen(h, th, hash);
    UpvalsRest(h, th, d);
    TableBelow(h, h', hash);
    FewerRoot(h.body, h'.body, h.swept, h.tosweep);
    UpvalsBelow(h, th);
    assert h'.body.Keys == h'.marked.Keys;
    assert forall i :: i in h.fixed ==> i in h'.body && h'.body[i].Str?;
  }

  lemma UpvalsBelow(h: Heap, th: Id)
    requires NamesBelow(h.body, h.brk) && th in h.body && h.body[th].Thread?
    ensures NamesBelow(SweepUpvals(h, th).body, h.brk)
  {
    var h' := SweepUpvals(h, th);
    forall i, n | i in h'.body && h'.body[i].Proto? && n in h'.body[i].names ensures n < h.brk {
      assert n in h.body[i].names;
    }
  }

  lemma UpvalsRest(h: Heap, th: Id, d: set<Id>)
    requires NamesAreStrings(h.body) && th in h.body && h.body[th].Thread?
    requires forall u :: u in d ==> u in h.body && IsOpen(h.body[u])
    ensures NamesAreStrings((h.body - d)[th := h.body[th].(openupval := Keep(h.body[th].openupval, d))])
  {
  }

  // Nothing happens to strings.
  lemma TableBelow(h: Heap, h': Heap, hash: string -> nat)
    requires StringTable(h.body, h.strt, hash) && h'.strt == h.strt
    requires forall i {:trigger h'.body[i]} :: i in h'.body && h'.body[i].Str? ==>
               i in h.body && h'.body[i] == h.body[i]
    requires forall i {:trigger h.body[i]} :: i in h.body && h.body[i].Str? ==> i in h'.body && h'.body[i] == h.body[i]
    ensures StringTable(h'.body, h'.strt, hash)
  {
    forall b, i | 0 <= b < |h.strt| && i in h.strt[b] ensures i in h.body && i in h'.body && h'.body[i] == h.body[i] {
      BucketMember(h.body, h.strt, hash, b, i);
    }
    forall b | 0 <= b < |h.strt| ensures Distinct(h.strt[b]) {
      BucketDistinct(h.body, h.strt, hash, b);
    }
    hide StringTable;
    FewerStrings(h.body, h'.body, h.strt, h'.strt, hash);
  }

  // ----- one object of the root list -----

  ghost predicate SweepColors(h: Heap) {
    StringsSwept(h, |h.strt|) && RootsSwept(h) && NeverBlack(h)
  }

  lemma UpvalsColor(h: Heap, th: Id, hash: string -> nat)
    requires Owned(h, hash) && th in h.body && h.body[th].Thread? && SweepColors(h)
    ensures SweepColors(SweepUpvals(h, th))
  {
    hide Owned, OpenList, SweptIntact, SweepUpvals, DeadIn;
    var h', d := SweepUpvals(h, th), DeadIn(h, h.body[th].openupval);
    UpvalsSwept(h, th, hash);
    StringIds(h, hash);
    SweptIds(h, hash);
    UpvalsSame(h, th);
    DeadUpvals(h, th, hash);
    forall b, i | 0 <= b < |h'.strt| && i in h'.strt[b] ensures Current(h', i) {
      assert Current(h, i);
      assert i !in d && i in h'.body;
    }
    forall i | i in h'.swept ensures Current(h', i) {
      assert Current(h, i);
      assert i !in d && i in h'.body;
    }
    forall i, u | i in h'.swept && i in h'.body && h'.body[i].Thread? && u in h'.body[i].openupval
      ensures Current(h', u)
    {
      if i != th {
        assert Current(h, u) && u in h.body[i].openupval;
        ThreadMember(h, i, u, hash);
        assert u in h'.body;
      }
    }
    forall i | i in h'.body && i in h'.marked && h'.marked[i] == Black
      ensures !h'.body[i].Str? && !h'.body[i].Thread? && !IsOpen(h'.body[i])
    {
      assert h.marked[i] == Black;
      UpvalsKind(h, th, i);
    }
  }

  lemma DeadUpvals(h: Heap, th: Id, hash: string -> nat)
    requires Owned(h, hash) && th in h.body && h.body[th].Thread?
    ensures forall u :: u in DeadIn(h, h.body[th].openupval) ==> u in h.body && IsOpen(h.body[u]) && Dead(h, u)
  {
    ThreadList(h, th, hash);
  }

  lemma UpvalsSame(h: Heap, th: Id)
    requires th in h.body && h.body[th].Thread?
    ensures var h' := SweepUpvals(h, th);
            h'.strt == h.strt && h'.swept == h.swept && h'.tosweep == h.tosweep && h'.phase == h.phase &&
            (forall i :: i in h'.body && i != th ==> i in h.body && h'.body[i] == h.body[i])
  {
  }

  lemma UpvalsKind(h: Heap, th: Id, i: Id)
    requires th in h.body && h.body[th].Thread? && i in SweepUpvals(h, th).body && i in h.body
    ensures var b' := SweepUpvals(h, th).body[i];
            b'.Str? == h.body[i].Str? && b'.Thread? == h.body[i].Thread? && IsOpen(b') == IsOpen(h.body[i])
  {
  }

  lemma StringIds(h: Heap, hash: string -> nat)
    requires Owned(h, hash)
    ensures h.body.Keys == h.marked.Keys
    ensures forall b, i {:trigger i in h.strt[b]} :: 0 <= b < |h.strt| && i in h.strt[b] ==>
              i in h.body && h.body[i].Str?
  {
    hide StringTable, OpenLists, RootList, NamesAreStrings, NamesBelow;
    forall b, i | 0 <= b < |h.strt| && i in h.strt[b] ensures i in h.body && h.body[i].Str? {
      BucketMember(h.body, h.strt, hash, b, i);
    }
  }

  lemma SweptIds(h: Heap, hash: string -> nat)
    requires Owned(h, hash)
    ensures forall i {:trigger i in h.swept} {:trigger i in h.tosweep} :: i in h.swept || i in h.tosweep ==>
              i in h.body && OnRootList(h.body[i])
  {
  }

  lemma ThreadMember(h: Heap, th: Id, u: Id, hash: string -> nat)
    requires Owned(h, hash) && th in h.body && h.body[th].Thread? && u in h.body[th].openupval
    ensures u in h.body && IsOpen(h.body[u]) && h.body[u].cell.th == th
  {
    ThreadList(h, th, hash);
  }

  // A survivor: white for the next cycle, and the sweep moves past it.
  function Whiten(h: Heap): Heap
    requires h.tosweep != []
  {
    var o := h.tosweep[0];
    h.(marked := h.marked[o := White(h.white)], swept := h.swept + [o], tosweep := h.tosweep[1..])
  }

  lemma WhitenKeeps(h: Heap, hash: string -> nat)
    requires Owned(h, hash) && Safe(h) && SweepColors(h) && h.tosweep != [] && !Dead(h, h.tosweep[0])
    requires var o := h.tosweep[0];
             o in h.body && h.body[o].Thread? ==> forall u :: u in h.body[o].openupval ==> Current(h, u)
    ensures Owned(Whiten(h), hash) && Safe(Whiten(h)) && SweepColors(Whiten(h)) && KeepsLive(h, Whiten(h))
  {
    hide RootList;
    var h', o := Whiten(h), h.tosweep[0];
    assert o in h.tosweep;
    SweptIds(h, hash);
    StringIds(h, hash);
    WhitenRoot(h.body, h.swept, h.tosweep);
    WhitenColors(h, hash);
    hide RootList, StringTable, OpenLists, NamesAreStrings;
    assert h'.marked.Keys == h.marked.Keys;
    assert forall i :: Live(h', i) <==> Live(h, i);
    assert Roots(h') == Roots(h);
    assert Safe(h') by { hide AllRefs, Roots; SameLife(h, h'); }
  }

  lemma WhitenColors(h: Heap, hash: string -> nat)
    requires Owned(h, hash) && SweepColors(h) && h.tosweep != []
    requires var o := h.tosweep[0];
             o in h.body && h.body[o].Thread? ==> forall u :: u in h.body[o].openupval ==> Current(h, u)
    ensures SweepColors(Whiten(h))
  {
    hide Owned;
    var h', o := Whiten(h), h.tosweep[0];
    assert forall i :: i in h'.swept <==> i in h.swept || i == o;
    forall i, u | i in h'.swept && i in h'.body && h'.body[i].Thread? && u in h'.body[i].openupval
      ensures Current(h', u)
    {
      assert Current(h, u);
    }
    forall i | i in h'.swept ensures Current(h', i) {
      assert i == o || Current(h, i);
    }
    forall b, i | 0 <= b < |h'.strt| && i in h'.strt[b] ensures Current(h', i) {
      assert Current(h, i);
    }
  }

  lemma SameLife(h: Heap, h': Heap)
    requires Safe(h) && h'.body == h.body && Roots(h') == Roots(h) && forall i :: Live(h', i) <==> Live(h, i)
    ensures Safe(h')
  {
    hide AllRefs, Roots;
  }

  lemma WhitenRoot(body: Bodies, swept: seq<Id>, tosweep: seq<Id>)
    requires RootList(body, swept, tosweep) && tosweep != []
    ensures RootList(body, swept + [tosweep[0]], tosweep[1..])
  {
    var o, rest := tosweep[0], tosweep[1..];
    TailDistinct(tosweep);
    assert tosweep == [o] + rest && o in tosweep;
    var l := swept + [o];
    forall a, b | 0 <= a < b < |l| ensures l[a] != l[b] {
      assert l[a] in swept;
      if b < |swept| { assert swept[a] != swept[b]; }
    }
    assert forall i :: i in l <==> i in swept || i == o;
    assert forall i :: i in tosweep <==> i in rest || i == o;
  }

  // An object that is freed: nothing live refers to it.
  function Freed(h: Heap, o: Id): Heap {
    h.(body := h.body - {o}, marked := h.marked - {o}, tosweep := Keep(h.tosweep, {o}))
  }

  lemma FreedKeeps(h: Heap, o: Id, hash: string -> nat)
    requires Owned(h, hash) && Safe(h) && SweepColors(h) && o in h.tosweep && Dead(h, o) && o in h.body
    requires h.body[o].Thread? ==> h.body[o].openupval == []
    ensures Owned(Freed(h, o), hash) && Safe(Freed(h, o)) && SweepColors(Freed(h, o)) && KeepsLive(h, Freed(h, o))
  {
    hide Owned;
    var h' := Freed(h, o);
    SweptIds(h, hash);
    StringIds(h, hash);
    OpenThreads(h, hash);
    FreedOwned(h, o, hash);
    FixedAreStrings(h, hash);
    RootThreads(h, hash);
    assert SweptTo(h, h', {o});
    assert SweptIntact(h, h') by {
      forall i | i in h'.body && i in h.body && IsOpen(h.body[i]) ensures h.body[i].cell.th in h'.body {
        assert i in h.body[h.body[i].cell.th].openupval;
      }
    }
    SweptSafe(h, h', {o}, hash);
    FreedColors(h, o, hash);
  }

  lemma RootThreads(h: Heap, hash: string -> nat)
    requires Owned(h, hash)
    ensures forall i :: i in h.swept ==> i !in h.tosweep
  {
  }

  lemma FreedColors(h: Heap, o: Id, hash: string -> nat)
    requires Owned(h, hash) && SweepColors(h) && o in h.tosweep && Dead(h, o) && o in h.body
    ensures SweepColors(Freed(h, o))
  {
    var h' := Freed(h, o);
    SweptIds(h, hash);
    StringIds(h, hash);
    RootThreads(h, hash);
    hide Owned;
    forall i, u | i in h'.swept && i in h'.body && h'.body[i].Thread? && u in h'.body[i].openupval
      ensures Current(h', u)
    {
      assert Current(h, u);
      assert u != o;
    }
    forall b, i | 0 <= b < |h'.strt| && i in h'.strt[b] ensures Current(h', i) {
      assert Current(h, i) && i != o;
    }
  }

  lemma FreedOwned(h: Heap, o: Id, hash: string -> nat)
    requires Owned(h, hash) && Safe(h) && o in h.tosweep && Dead(h, o) && o in h.body
    requires h.body[o].Thread? ==> h.body[o].openupval == []
    ensures Owned(Freed(h, o), hash)
  {
    hide Keep;
    var h' := Freed(h, o);
    FreedRoot(h.body, h.swept, h.tosweep, o);
    SweptIds(h, hash);
    TableBelow(h, h', hash);
    FreedOpen(h.body, h.uvhead, o);
    FreedNames(h.body, o);
    assert Live(h, h.main) && Live(h, h.running) by { RootsLive(h); }
    hide RootList, StringTable, OpenLists, NamesAreStrings, Safe;
    assert h'.body.Keys == h'.marked.Keys;
  }

  lemma RootsLive(h: Heap)
    requires Safe(h)
    ensures Live(h, h.main) && Live(h, h.running)
  {
    assert h.main in Roots(h) && h.running in Roots(h);
  }

  lemma FreedNames(body: Bodies, o: Id)
    requires NamesAreStrings(body)
    ensures NamesAreStrings(body - {o})
  {
  }

  lemma FreedRoot(body: Bodies, swept: seq<Id>, tosweep: seq<Id>, o: Id)
    requires RootList(body, swept, tosweep) && o in tosweep
    ensures RootList(body - {o}, swept, Keep(tosweep, {o}))
  {
    KeepDistinct(tosweep, {o});
  }

  lemma FreedOpen(body: Bodies, uvhead: seq<Id>, o: Id)
    requires OpenLists(body, uvhead) && o in body && OnRootList(body[o])
    requires (body[o].Thread? ==> body[o].openupval == [])
    ensures OpenLists(body - {o}, uvhead)
  {
    var b' := body - {o};
    forall th | th in b' && b'[th].Thread? ensures OpenList(b', th) {
      assert OpenList(body, th);
      var l := body[th].openupval;
      forall u | u in l ensures u in b' && b'[u] == body[u] {
      }
      assert forall a :: 0 <= a < |l| ==> l[a] in l;
    }
    forall u ensures u in uvhead <==> u in b' && IsOpen(b'[u]) {
      assert u in uvhead <==> u in body && IsOpen(body[u]);
    }
  }

  // ----- sweeping a list element by element -----

  lemma {:induction false} KeepSame(l: seq<Id>, d: set<Id>, d': set<Id>)
    requires forall i :: i in l ==> (i in d <==> i in d')
    ensures Keep(l, d) == Keep(l, d')
    decreases l
  {
    if l != [] {
      var x := l[0];
      assert x in l;
      KeepSame(l[1..], d, d');
    }
  }

  lemma {:induction false} KeepTwice(l: seq<Id>, d: set<Id>, u: Id)
    ensures Keep(Keep(l, d), {u}) == Keep(l, d + {u})
    decreases l
  {
    if l != [] {
      KeepTwice(l[1..], d, u);
      var rest := Keep(l[1..], d);
      assert ([l[0]] + rest)[1..] == rest;
      assert [] + rest == rest;
    }
  }

  lemma {:induction false} KeepAll(l: seq<Id>, d: set<Id>)
    requires forall i :: i in l ==> i !in d
    ensures Keep(l, d) == l
    decreases l
  {
    if l != [] {
      var x := l[0];
      assert x in l;
      KeepAll(l[1..], d);
      assert l == [l[0]] + l[1..];
    }
  }

  // One more element of l has been looked at: u, freed or made white.
  lemma SweepAnother(h0: Heap, p: seq<Id>, u: Id)
    requires Distinct(p + [u])
    ensures var d, d' := DeadIn(h0, p), DeadIn(h0, p + [u]);
            var goes := Dead(h0, u) && u !in h0.fixed;
            d' == (if goes then d + {u} else d) && u !in d &&
            Keep(p + [u], d') == Keep(p, d) + (if goes then [] else [u]) &&
            Keep(h0.uvhead, d') == (if goes then Keep(Keep(h0.uvhead, d), {u}) else Keep(h0.uvhead, d))
  {
    var d, d' := DeadIn(h0, p), DeadIn(h0, p + [u]);
    var goes := Dead(h0, u) && u !in h0.fixed;
    forall k | 0 <= k < |p| ensures p[k] != u {
      assert (p + [u])[k] != (p + [u])[|p|];
    }
    assert forall i :: i in p + [u] <==> i in p || i == u;
    assert d' == if goes then d + {u} else d;
    KeepOne(p, d', u);
    KeepSame(p, d, d');
    if goes { KeepTwice(h0.uvhead, d, u); }
  }

  // The colours after looking at u.
  lemma SweepColor(marked: Colors, d: set<Id>, kept: seq<Id>, u: Id, goes: bool, w: bool)
    requires u in marked && u !in d && u !in kept
    ensures var m := Whitened(marked - d, kept, w);
            u in m && m[u] == marked[u] &&
            if goes then Whitened(marked - (d + {u}), kept, w) == m - {u}
            else Whitened(marked - d, kept + [u], w) == m[u := White(w)]
  {
    var m := Whitened(marked - d, kept, w);
    assert forall i :: i in kept + [u] <==> i in kept || i == u;
  }

  // ----- what a whole sweep leaves -----

  // From h to h' some dead objects went, and no live or fixed one did.
  ghost predicate Fades(h: Heap, h': Heap) {
    && h'.fixed == h.fixed && h'.white == h.white
    && (forall i {:trigger i in h'.body} :: i in h'.body ==>
          i in h.body && (Dead(h, i) && i !in h.fixed ==> Dead(h', i)))
    && (forall i {:trigger Live(h, i)} :: Live(h, i) ==> Live(h', i))
    && (forall i {:trigger i in h.fixed} :: i in h.fixed && i in h.body ==> i in h'.body)
  }

  lemma FadesTrans(h0: Heap, h1: Heap, h2: Heap)
    requires Fades(h0, h1) && Fades(h1, h2)
    ensures Fades(h0, h2)
  {
  }

  lemma SweptFades(h: Heap, h': Heap, d: set<Id>)
    requires SweptTo(h, h', d) && h.body.Keys == h.marked.Keys
    ensures Fades(h, h')
  {
    forall i | i in h'.body ensures i in h.body && (Dead(h, i) && i !in h.fixed ==> Dead(h', i)) {
      assert i in h.body && i !in d;
    }
    forall i | Live(h, i) ensures Live(h', i) {
      assert i !in d && i in h'.body;
    }
  }

  // Once nothing is in the other white, what is left was live or is fixed.
  lemma AllFaded(h: Heap, h': Heap)
    requires Fades(h, h') && forall i :: i in h'.marked ==> Current(h', i)
    ensures forall i :: i in h'.body ==> Live(h, i) || i in h.fixed || i !in h.marked
    ensures forall i :: Live(h, i) || (i in h.fixed && i in h.body) ==> i in h'.body
  {
  }

  lemma KeepsLiveTrans(h0: Heap, h1: Heap, h2: Heap)
    requires KeepsLive(h0, h1) && KeepsLive(h1, h2) && Fades(h0, h1)
    ensures KeepsLive(h0, h2)
  {
    forall i | i in h0.body && Live(h0, i) ensures Intact(h0.body, h2.body, i) {
      assert Intact(h0.body, h1.body, i);
      assert Live(h1, i);
      assert Intact(h1.body, h2.body, i);
    }
  }

  lemma {:induction false} KeepShorter(l: seq<Id>, d: set<Id>)
    ensures |Keep(l, d)| <= |l|
    ensures (exists i :: i in l && i in d) ==> |Keep(l, d)| < |l|
    decreases l
  {
    if l != [] {
      KeepShorter(l[1..], d);
      if exists i :: i in l && i in d {
        var i :| i in l && i in d;
        assert l == [l[0]] + l[1..];
        assert i == l[0] || i in l[1..];
      }
    }
  }

  lemma SweepDone(h: Heap, hash: string -> nat)
    requires Owned(h, hash) && SweepColors(h) && h.tosweep == []
    ensures forall i :: i in h.marked ==> Current(h, i)
  {
    forall i | i in h.marked ensures Current(h, i) {
      WhereIs(h, i, hash);
      if h.body[i].Str? {
        var b := hash(h.body[i].s) % |h.strt|;
        assert 0 <= b < |h.strt| && i in h.strt[b];
      } else if IsOpen(h.body[i]) {
        var th := h.body[i].cell.th;
        WhereIs(h, th, hash);
        assert th in h.swept && i in h.body[th].openupval;
      } else {
        assert i in h.swept;
      }
    }
  }

  // Every object is on the list of its owner.
  lemma WhereIs(h: Heap, i: Id, hash: string -> nat)
    requires Owned(h, hash) && i in h.marked
    ensures i in h.body && |h.strt| > 0
    ensures h.body[i].Str? ==> i in h.strt[hash(h.body[i].s) % |h.strt|]
    ensures IsOpen(h.body[i]) ==>
              var th := h.body[i].cell.th;
              th in h.body && th in h.marked && h.body[th].Thread? && i in h.body[th].openupval
    ensures OnRootList(h.body[i]) ==> i in h.swept || i in h.tosweep
  {
    OpenThreads(h, hash);
    if h.body[i].Str? { BucketOf(h.body, h.strt, hash, i); }
  }

  // ----- a whole cycle -----

  // How many single steps there may be to the end of the cycle, at most.
  ghost function Remaining(h: Heap): nat {
    match h.phase
    case Pause => 0
    case Propagate => |Untraversed(h.marked, h.gray)| + |h.strt| + |h.swept| + |h.tosweep| + |h.uvhead| + 4
    case SweepString =>
      (if h.sweepstr < |h.strt| then |h.strt| - h.sweepstr else 0) + |h.tosweep| + |h.uvhead| + 3
    case Sweep => |h.tosweep| + |h.uvhead| + 2
    case Finalize => 1
  }

  // The same for a cycle that is about to begin.
  function CycleSteps(h: Heap): nat {
    |h.body| + |h.strt| + |h.swept| + |h.tosweep| + |h.uvhead| + 4
  }

  // One step begins a cycle, or gets nearer to its end.
  ghost predicate Nearer(h: Heap, h': Heap) {
    if h.phase == Pause then h'.phase == Propagate && Remaining(h') <= CycleSteps(h)
    else Remaining(h') < Remaining(h)
  }

  lemma FewerThan(a: set<Id>, b: set<Id>)
    requires a <= b
    ensures |a| <= |b| && (a < b ==> |a| < |b|)
  {
    assert b == a + (b - a);
  }

  lemma BeginsNear(h: Heap, h': Heap, hash: string -> nat)
    requires Inv(h', hash) && h.phase == Pause && h'.phase == Propagate && h'.body == h.body
    requires h' == h.(marked := h'.marked, gray := h'.gray, grayagain := h'.grayagain, phase := Propagate)
    ensures Nearer(h, h')
  {
    PropagateParts(h', hash);
    forall i | i in Untraversed(h'.marked, h'.gray) ensures i in h.body.Keys {
    }
    FewerThan(Untraversed(h'.marked, h'.gray), h.body.Keys);
  }

  lemma TraversedNear(h: Heap, h': Heap)
    requires h.phase == Propagate && Untraversed(h'.marked, h'.gray) < Untraversed(h.marked, h.gray)
    requires h' == h.(body := h'.body, marked := h'.marked, gray := h'.gray, grayagain := h'.grayagain)
    ensures Nearer(h, h')
  {
    FewerThan(Untraversed(h'.marked, h'.gray), Untraversed(h.marked, h.gray));
  }

  lemma StringNear(h: Heap)
    requires h.phase == SweepString && h.sweepstr < |h.strt|
    ensures var h' := SweepStringStep(h); Nearer(h, h') && (h'.phase == SweepString || h'.phase == Sweep)
  {
  }

  lemma SomeNear(h: Heap, h': Heap)
    requires h.phase == Sweep
    requires h'.phase == Finalize ||
             (h'.phase == Sweep && |h'.tosweep| + |h'.uvhead| < |h.tosweep| + |h.uvhead|)
    ensures Nearer(h, h')
  {
  }

  lemma BeforeSweep(h: Heap, hash: string -> nat)
    requires Inv(h, hash) && (h.phase == Pause || h.phase == Propagate)
    ensures NoneDead(h) && NeverBlack(SweepStart(h))
  {
    forall i | i in h.marked ensures h.marked[i] != White(!h.white) {
      if h.phase == Pause { assert Current(h, i); }
    }
    if h.phase == Pause {
      forall i | i in h.body && i in h.marked ensures h.marked[i] != Black { assert Current(h, i); }
    }
  }

  lemma ResetSame(h: Heap)
    requires NoneDead(h) && NeverBlack(SweepStart(h))
    ensures var h' := SweepStart(h.(gray := [], grayagain := []));
            KeepsLive(h, h') && Fades(h, h') && NoneDead(h') && NeverBlack(h')
  {
  }

  lemma ResetKeeps(h: Heap, hash: string -> nat)
    requires Inv(h, hash) && (h.phase == Pause || h.phase == Propagate)
    ensures var h' := SweepStart(h.(gray := [], grayagain := []));
            Inv(h', hash) && KeepsLive(h, h') && NoneDead(h') && NoneDead(h) && Fades(h, h')
  {
    var h' := SweepStart(h.(gray := [], grayagain := []));
    FlipRoot(h.body, h.swept, h.tosweep);
    TableSize(h.body, h.strt, hash);
    BeforeSweep(h, hash);
    ResetSame(h);
    hide RootList, StringTable, OpenLists, NamesAreStrings, KeepsLive, Fades, NoneDead, NeverBlack;
    assert Owned(h', hash);
    SameLife(h, h');
  }

  // A cycle that starts with nothing marked ends with what is reachable or fixed.
  lemma CycleLeaves(h1: Heap, ha: Heap, h2: Heap, r: set<Id>)
    requires Safe(h1) && r == ReachSet(h1) && KeepsLive(h1, ha) && Safe(ha) && (forall i :: Live(ha, i) ==> i in r)
    requires ha.body.Keys == h1.body.Keys && ha.fixed == h1.fixed && ha.body.Keys == ha.marked.Keys
    requires KeepsLive(ha, h2) && Fades(ha, h2) && forall i :: i in h2.marked ==> Current(h2, i)
    ensures forall i :: i in h2.body <==> Reachable(h1, i) || (i in h1.fixed && i in h1.body)
    ensures forall i :: Reachable(h1, i) ==> i in h1.body && Intact(h1.body, h2.body, i)
  {
    AllFaded(ha, h2);
    SameReach(h1, ha);
    forall i | Reachable(h1, i) ensures Live(h1, i) && Live(ha, i) && i in h2.body && Intact(h1.body, h2.body, i) {
      ReachableLive(h1, i);
      ReachableLive(ha, i);
      assert Intact(h1.body, ha.body, i);
      assert Intact(ha.body, h2.body, i);
    }
    forall i | i in h2.body ensures Reachable(h1, i) || (i in h1.fixed && i in h1.body) {
      assert i in ha.body;
      if Live(ha, i) { assert i in r; }
    }
    forall i | i in h1.fixed && i in h1.body ensures i in h2.body {
      assert i in ha.fixed && i in ha.body;
    }
  }

  lemma FadesSame(h: Heap, h': Heap)
    requires Fades(h, h')
    ensures h'.fixed == h.fixed && h'.white == h.white
  {
  }

  // What one call of singlestep does, by phase; r is any closed set that holds what is marked.
  ghost predicate StepRel(h: Heap, h': Heap, r: set<Id>) {
    h'.fixed == h.fixed && Nearer(h, h') &&
    match h.phase
    case Pause =>
      h'.phase == Propagate && h'.body == h.body && ClosedSet(h'.body, r) && forall i :: Marked(h'.marked, i) ==> i in r
    case Propagate =>
      if h'.phase == Propagate
      then Tidied(h.body, h'.body) && ClosedSet(h'.body, r) && forall i :: Marked(h'.marked, i) ==> i in r
      else h'.phase == SweepString && h'.body.Keys == h.body.Keys && forall i :: Live(h', i) ==> i in r
    case SweepString => (h'.phase == SweepString || h'.phase == Sweep) && Fades(h, h')
    case Sweep => (h'.phase == Sweep || h'.phase == Finalize) && Fades(h, h')
    case Finalize => h'.phase == Pause && h'.body == h.body && h'.marked == h.marked && Fades(h, h')
  }

  // The state ha after the atomic phase of a cycle that began in h1 with nothing marked.
  ghost predicate AfterMark(h1: Heap, ha: Heap, r: set<Id>) {
    && KeepsLive(h1, ha) && Safe(ha) && (forall i :: Live(ha, i) ==> i in r)
    && ha.body.Keys == h1.body.Keys && ha.fixed == h1.fixed && ha.body.Keys == ha.marked.Keys
  }

  // The collector has done nothing a program can see.
  ghost predicate Unseen(h: Heap, h': Heap) {
    h'.running == h.running && h'.mt == h.mt && h'.fixed == h.fixed &&
    forall i :: Reachable(h, i) ==> i in h.body && Intact(h.body, h'.body, i) && Reachable(h', i)
  }

  // A cycle that began in h0, all white; ha is the state after its atomic phase.
  ghost predicate InCycle(h0: Heap, ha: Heap, h: Heap, r: set<Id>) {
    h.fixed == h0.fixed && Roots(h) == Roots(h0) &&
    if h.phase == Propagate
    then KeepsLive(h0, h) && h.body.Keys == h0.body.Keys && ClosedSet(h.body, r) && Roots(h) <= r &&
         forall i :: Marked(h.marked, i) ==> i in r
    else AfterMark(h0, ha, r) && KeepsLive(ha, h) && Fades(ha, h)
  }

  lemma KeepsRoots(h: Heap, h': Heap)
    requires KeepsLive(h, h')
    ensures Roots(h') == Roots(h)
  {
  }

  lemma CycleOpen(h0: Heap, ha: Heap, h: Heap, r: set<Id>)
    requires InCycle(h0, ha, h, r)
    ensures h.phase == Propagate ==>
              ClosedSet(h.body, r) && Roots(h) <= r && forall i :: Marked(h.marked, i) ==> i in r
  {
  }

  lemma StepNear(h: Heap, h': Heap, r: set<Id>)
    requires StepRel(h, h', r)
    ensures Nearer(h, h')
  {
  }

  // One step of a cycle, or its first one.
  lemma CycleGoes(h0: Heap, h1: Heap, h2: Heap, ha: Heap, r: set<Id>, hash: string -> nat) returns (ha': Heap)
    requires Inv(h1, hash) && Inv(h2, hash) && KeepsLive(h1, h2) && StepRel(h1, h2, r)
    requires if h1.phase == Pause then h1 == h0 && Roots(h0) <= r else InCycle(h0, ha, h1, r)
    ensures InCycle(h0, ha', h2, r)
  {
    hide Intact, Owned, Safe, KeepsLive, Fades, Roots, Inv;
    KeepsRoots(h1, h2);
    if h1.phase == Pause {
      ha' := ha;
    } else {
      ha' := CycleStep(h0, h1, h2, ha, r, hash);
    }
  }

  // A cycle that has ended leaves what was reachable when it began, and what is fixed.
  lemma CycleEnds(h0: Heap, ha: Heap, h: Heap, r: set<Id>, hash: string -> nat)
    requires Inv(h0, hash) && Inv(h, hash) && h.phase == Pause && r == ReachSet(h0) && InCycle(h0, ha, h, r)
    ensures forall i :: i in h.body <==> Reachable(h0, i) || i in h.fixed
  {
    hide Inv, Owned, Intact, Safe, Roots, Reachable, ReachSet, KeepsLive, Fades, AfterMark;
    SelfFades(h0);
    CycleWhole(h0, h0, h, r, hash);
  }

  lemma FinishOn(h0: Heap, h1: Heap, h2: Heap)
    requires KeepsLive(h0, h1) && Fades(h0, h1) && KeepsLive(h1, h2) && StepRel(h1, h2, {})
    requires h1.phase == SweepString || h1.phase == Sweep
    ensures KeepsLive(h0, h2) && Fades(h0, h2)
    ensures (h2.phase == SweepString || h2.phase == Sweep || h2.phase == Finalize) && Nearer(h1, h2)
  {
    KeepsLiveTrans(h0, h1, h2);
    FadesTrans(h0, h1, h2);
  }

  // With nothing dead at the start, nothing is freed.
  lemma NothingFreed(h0: Heap, h1: Heap, hash: string -> nat)
    requires Owned(h0, hash) && NoneDead(h0) && Fades(h0, h1)
    ensures h1.body.Keys == h0.body.Keys
  {
    forall i | i in h0.body ensures i in h1.body {
      assert Live(h0, i);
      assert Live(h1, i);
    }
    forall i | i in h1.body ensures i in h0.body {
    }
  }

  // One step of a cycle.
  lemma CycleStep(h1: Heap, h2: Heap, h3: Heap, ha: Heap, r: set<Id>, hash: string -> nat) returns (ha': Heap)
    requires Inv(h2, hash) && Inv(h3, hash) && KeepsLive(h2, h3) && StepRel(h2, h3, r) && h2.phase != Pause
    requires h2.fixed == h1.fixed
    requires h2.phase == Propagate ==> KeepsLive(h1, h2) && h2.body.Keys == h1.body.Keys
    requires h2.phase != Propagate ==> AfterMark(h1, ha, r) && KeepsLive(ha, h2) && Fades(ha, h2)
    ensures h3.fixed == h1.fixed
    ensures h3.phase == Propagate ==>
              KeepsLive(h1, h3) && h3.body.Keys == h1.body.Keys && ClosedSet(h3.body, r) &&
              forall i :: Marked(h3.marked, i) ==> i in r
    ensures h3.phase != Propagate ==> AfterMark(h1, ha', r) && KeepsLive(ha', h3) && Fades(ha', h3)
  {
    hide Intact, Owned, Safe;
    ha' := ha;
    if h2.phase == Propagate {
      PropagateLive(h2, hash);
      KeepsLiveAll(h1, h2, h3, hash);
      if h3.phase != Propagate {
        ha' := h3;
        SelfFades(h3);
        KeysOf(h3, hash);
      }
    } else {
      KeepsLiveTrans(ha, h2, h3);
      FadesTrans(ha, h2, h3);
    }
  }

  lemma ResetFreesNone(h0: Heap, h1: Heap, hash: string -> nat)
    requires Inv(h0, hash) && (h0.phase == Pause || h0.phase == Propagate) && Fades(h0, h1)
    ensures h1.body.Keys == h0.body.Keys
  {
    hide Owned, Fades;
    ResetKeeps(h0, hash);
    NothingFreed(h0, h1, hash);
  }

  lemma KeysOf(h: Heap, hash: string -> nat)
    requires Inv(h, hash)
    ensures h.body.Keys == h.marked.Keys && Safe(h)
  {
  }

  lemma SelfFades(h: Heap)
    ensures Fades(h, h) && KeepsLive(h, h)
  {
  }

  lemma PropagateLive(h: Heap, hash: string -> nat)
    requires Inv(h, hash) && h.phase == Propagate
    ensures forall i :: i in h.body ==> Live(h, i)
  {
  }

  lemma KeepsLiveAll(h0: Heap, h1: Heap, h2: Heap, hash: string -> nat)
    requires KeepsLive(h0, h1) && KeepsLive(h1, h2) && h1.body.Keys == h0.body.Keys
    requires forall i :: i in h1.body ==> Live(h1, i)
    ensures KeepsLive(h0, h2)
  {
    forall i | i in h0.body && Live(h0, i) ensures Intact(h0.body, h2.body, i) {
      assert Intact(h0.body, h1.body, i);
      assert i in h1.body && Live(h1, i);
      assert Intact(h1.body, h2.body, i);
    }
  }

  lemma AllCurrentAtPause(h: Heap, hash: string -> nat)
    requires Inv(h, hash) && h.phase == Pause
    ensures forall i :: i in h.marked ==> Current(h, i)
  {
  }

  lemma FixedOf(h: Heap, hash: string -> nat)
    requires Inv(h, hash)
    ensures forall i :: i in h.fixed ==> i in h.body
  {
  }

  lemma CycleWhole(h0: Heap, h1: Heap, h2: Heap, r: set<Id>, hash: string -> nat)
    requires Inv(h0, hash) && Inv(h1, hash) && Inv(h2, hash) && h2.phase == Pause && KeepsLive(h0, h1)
    requires h1.fixed == h0.fixed == h2.fixed && r == ReachSet(h1)
    requires exists ha: Heap :: AfterMark(h1, ha, r) && KeepsLive(ha, h2) && Fades(ha, h2)
    ensures forall i :: i in h2.marked ==> Current(h2, i)
    ensures forall i :: i in h2.body <==> Reachable(h0, i) || i in h2.fixed
    ensures Unseen(h0, h2)
  {
    hide Inv, Owned, Intact, Safe, Roots, Reachable, ReachSet;
    KeysOf(h0, hash);
    KeysOf(h1, hash);
    AllCurrentAtPause(h2, hash);
    var ha: Heap :| AfterMark(h1, ha, r) && KeepsLive(ha, h2) && Fades(ha, h2);
    CycleLeaves(h1, ha, h2, r);
    SameReach(h0, h1);
    SameReach(h1, ha);
    SameReach(ha, h2);
    FixedOf(h1, hash);
    forall i | Reachable(h0, i) ensures i in h0.body && Intact(h0.body, h2.body, i) && Reachable(h2, i) {
      ReachableLive(h0, i);
      assert Intact(h0.body, h1.body, i);
      assert Reachable(h1, i);
      IntactTrans(h0.body, h1.body, h2.body, i);
    }
  }

  lemma IntactTrans(b0: Bodies, b1: Bodies, b2: Bodies, i: Id)
    requires i in b0 && Intact(b0, b1, i) && i in b1 && Intact(b1, b2, i)
    ensures Intact(b0, b2, i)
  {
  }
}
