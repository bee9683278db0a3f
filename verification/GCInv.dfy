// The whole state of the collector, and what holds between its steps.

module GCInv {
  import opened GCHeap
  import opened Options

  datatype Phase = Pause | Propagate | SweepString | Sweep | Finalize

  datatype Heap = Heap(
    body: Bodies, marked: Colors, white: bool, phase: Phase,
    gray: seq<Id>, grayagain: seq<Id>,
    swept: seq<Id>, tosweep: seq<Id>,     // rootgc, split where sweepgc points
    strt: seq<seq<Id>>, sweepstr: nat,    // the string table and its sweep position
    uvhead: seq<Id>,                      // all open upvalues
    main: Id, running: Id, registry: Value, mt: seq<Option<Id>>,
    fixed: set<Id>, brk: Id)

  // ----- who owns what -----

  predicate OnRootList(b: Body) {
    !b.Str? && !IsOpen(b)
  }

  // rootgc links every object but strings and open upvalues.
  ghost predicate RootList(body: Bodies, swept: seq<Id>, tosweep: seq<Id>) {
    && Distinct(swept) && Distinct(tosweep) && (forall i :: i in swept ==> i !in tosweep)
    && (forall i {:trigger i in swept} {:trigger i in tosweep} :: i in swept || i in tosweep ==>
          i in body && OnRootList(body[i]))
    && forall i {:trigger body[i]} :: i in body && OnRootList(body[i]) ==> i in swept || i in tosweep
  }

  // The string table chains each string in the bucket of its hash, one per content.
  ghost predicate StringTable(body: Bodies, strt: seq<seq<Id>>, hash: string -> nat) {
    && |strt| > 0
    && (forall b :: 0 <= b < |strt| ==> Distinct(strt[b]))
    && (forall b, i :: 0 <= b < |strt| && i in strt[b] ==> i in body && body[i].Str? && hash(body[i].s) % |strt| == b)
    && (forall i {:trigger body[i]} :: i in body && body[i].Str? ==> i in strt[hash(body[i].s) % |strt|])
    && forall b, i, j {:trigger i in strt[b], j in strt[b]} ::
         0 <= b < |strt| && i in strt[b] && j in strt[b] && i in body && j in body && body[i] == body[j] ==> i == j
  }

  // A thread's open upvalues, highest slot first, all below its top.
  ghost predicate OpenList(body: Bodies, th: Id)
    requires th in body && body[th].Thread?
  {
    var l := body[th].openupval;
    && body[th].top <= |body[th].stack|
    && (forall u :: u in l ==>
          u in body && IsOpen(body[u]) && body[u].cell.th == th && body[u].cell.level < body[th].top)
    && forall a, b :: 0 <= a < b < |l| ==> body[l[a]].cell.level > body[l[b]].cell.level
  }

  ghost predicate OpenLists(body: Bodies, uvhead: seq<Id>) {
    && (forall th {:trigger OpenList(body, th)} :: th in body && body[th].Thread? ==> OpenList(body, th))
    && (forall u {:trigger body[u]} :: u in body && IsOpen(body[u]) ==>
          var th := body[u].cell.th; th in body && body[th].Thread? && u in body[th].openupval)
    && Distinct(uvhead) && forall u {:trigger body[u]} {:trigger u in uvhead} :: u in uvhead <==>
       u in body && IsOpen(body[u])
  }

  // A name, even of an unreachable prototype, is an address used before.
  ghost predicate NamesBelow(body: Bodies, brk: Id) {
    forall i, n {:trigger n in body[i].names} :: i in body && body[i].Proto? && n in body[i].names ==> n < brk
  }

  ghost predicate Owned(h: Heap, hash: string -> nat) {
    && h.body.Keys == h.marked.Keys && NamesAreStrings(h.body) && NamesBelow(h.body, h.brk)
    && RootList(h.body, h.swept, h.tosweep) && StringTable(h.body, h.strt, hash) && OpenLists(h.body, h.uvhead)
    && (forall i :: i in h.body ==> i < h.brk)
    && h.main in h.body && h.body[h.main].Thread? && h.running in h.body && h.body[h.running].Thread?
    && forall i :: i in h.fixed ==> i in h.body && h.body[i].Str?
  }

  // ----- no reference dangles -----

  // isdead: an object in the other white
  predicate Dead(h: Heap, i: Id) {
    i in h.marked && h.marked[i] == White(!h.white)
  }

  predicate Live(h: Heap, i: Id) {
    i in h.body && i in h.marked && h.marked[i] != White(!h.white)
  }

  function MtRefs(mt: seq<Option<Id>>): set<Id> {
    set i | 0 <= i < |mt| && mt[i].Some? :: mt[i].value
  }

  function Roots(h: Heap): set<Id> {
    {h.main, h.running} + ValueRefs(h.registry) + MtRefs(h.mt)
  }

  // Whatever is not dead refers to objects that are allocated and not dead.
  ghost predicate Safe(h: Heap) {
    && (forall i :: i in Roots(h) ==> Live(h, i))
    && forall i, r {:trigger r in AllRefs(h.body, i)} :: i in h.body && Live(h, i) && r in AllRefs(h.body, i) ==>
         Live(h, r)
  }

  // ----- phases -----

  predicate Current(h: Heap, i: Id) {
    i in h.marked && h.marked[i] == White(h.white)
  }

  function Ids(s: seq<Id>): set<Id> {
    set i | i in s
  }

  ghost predicate NoneDead(h: Heap) {
    forall i :: i in h.marked ==> h.marked[i] != White(!h.white)
  }

  // Threads and open upvalues are not kept settled while the mutator runs.
  function Excused(h: Heap): set<Id> {
    Ids(h.uvhead) + Ids(h.grayagain)
  }

  ghost predicate StringsSwept(h: Heap, n: nat) {
    forall b, i :: 0 <= b < n && b < |h.strt| && i in h.strt[b] ==> Current(h, i)
  }

  // Objects already swept, and the open upvalues of swept threads, are white again.
  ghost predicate RootsSwept(h: Heap) {
    (forall i :: i in h.swept ==> Current(h, i)) &&
    (forall i, u :: i in h.swept && i in h.body && h.body[i].Thread? && u in h.body[i].openupval ==> Current(h, u))
  }

  ghost predicate PhaseInv(h: Heap) {
    match h.phase
    case Pause => forall i :: i in h.marked ==> Current(h, i)
    case Propagate =>
      NoneDead(h) && Tri(h.body, h.marked, h.gray, h.grayagain, Excused(h)) &&
      Marked(h.marked, h.main) && (forall i :: i in ValueRefs(h.registry) ==> Marked(h.marked, i))
    case SweepString => h.swept == [] && StringsSwept(h, h.sweepstr) && h.sweepstr < |h.strt| && NeverBlack(h)
    case Sweep => StringsSwept(h, |h.strt|) && RootsSwept(h) && NeverBlack(h)
    case Finalize => forall i :: i in h.marked ==> Current(h, i)
  }

  // Threads, strings and open upvalues are never black.
  ghost predicate NeverBlack(h: Heap) {
    forall i {:trigger h.body[i]} :: i in h.body && i in h.marked && h.marked[i] == Black ==>
      !h.body[i].Str? && !h.body[i].Thread? && !IsOpen(h.body[i])
  }

  ghost predicate Inv(h: Heap, hash: string -> nat) {
    Owned(h, hash) && Safe(h) && PhaseInv(h)
  }

  // ----- reachability -----

  ghost predicate Path(body: Bodies, roots: set<Id>, p: seq<Id>) {
    && p != [] && p[0] in roots && (forall k :: 0 <= k < |p| ==> p[k] in body)
    && forall k :: 0 <= k < |p| - 1 ==> p[k + 1] in Refs(body, p[k])
  }

  ghost predicate ReachableFrom(body: Bodies, roots: set<Id>, i: Id) {
    exists p :: Path(body, roots, p) && p[|p| - 1] == i
  }

  ghost predicate Reachable(h: Heap, i: Id) {
    ReachableFrom(h.body, Roots(h), i)
  }

  ghost function ReachSet(h: Heap): set<Id> {
    set i | i in h.body && Reachable(h, i)
  }

  // A closed set that holds the roots holds everything reachable.
  lemma {:induction false} PathInside(body: Bodies, roots: set<Id>, p: seq<Id>, s: set<Id>)
    requires Path(body, roots, p) && ClosedSet(body, s) && roots <= s
    ensures p[|p| - 1] in s
    decreases |p|
  {
    if |p| > 1 {
      var q := p[..|p| - 1];
      assert Path(body, roots, q) by {
        forall k | 0 <= k < |q| - 1 ensures q[k + 1] in Refs(body, q[k]) {
          assert q[k + 1] == p[k + 1] && q[k] == p[k];
        }
      }
      PathInside(body, roots, q, s);
      var i, r := p[|p| - 2], p[|p| - 1];
      assert q[|q| - 1] == i;
      assert r == p[|p| - 2 + 1] && r in Refs(body, i);
    }
  }

  lemma {:induction false} PathLive(h: Heap, p: seq<Id>)
    requires Safe(h) && Path(h.body, Roots(h), p)
    ensures Live(h, p[|p| - 1])
    decreases |p|
  {
    if |p| > 1 {
      var q := p[..|p| - 1];
      assert Path(h.body, Roots(h), q) by {
        forall k | 0 <= k < |q| - 1 ensures q[k + 1] in Refs(h.body, q[k]) {
          assert q[k + 1] == p[k + 1] && q[k] == p[k];
        }
      }
      PathLive(h, q);
      var i, r := p[|p| - 2], p[|p| - 1];
      assert q[|q| - 1] == i;
      assert r == p[|p| - 2 + 1] && r in Refs(h.body, i);
      RefsAreAll(h.body, i, r);
    }
  }

  lemma RefsAreAll(body: Bodies, i: Id, r: Id)
    requires i in body && r in Refs(body, i)
    ensures r in AllRefs(body, i)
  {
    if body[i].Table? {
    } else if body[i].Thread? && r in ValuesRefs(LiveStack(body[i])) {
      var k :| 0 <= k < |LiveStack(body[i])| && LiveStack(body[i])[k].Ref? && LiveStack(body[i])[k].id == r;
      assert body[i].stack[k] == LiveStack(body[i])[k];
    }
  }

  // What is reachable is allocated and not dead.
  lemma ReachableLive(h: Heap, i: Id)
    requires Safe(h) && Reachable(h, i)
    ensures Live(h, i)
  {
    var p :| Path(h.body, Roots(h), p) && p[|p| - 1] == i;
    PathLive(h, p);
  }

  lemma ReachSetClosed(h: Heap)
    requires Safe(h)
    ensures ClosedSet(h.body, ReachSet(h)) && Roots(h) <= ReachSet(h)
  {
    forall i, r | i in ReachSet(h) && r in Refs(h.body, i) ensures r in ReachSet(h) {
      var p :| Path(h.body, Roots(h), p) && p[|p| - 1] == i;
      RefsAreAll(h.body, i, r);
      ReachableLive(h, i);
      assert Live(h, r);
      var q := p + [r];
      assert Path(h.body, Roots(h), q) && q[|q| - 1] == r;
    }
    forall i | i in Roots(h) ensures i in ReachSet(h) {
      assert Live(h, i);
      assert Path(h.body, Roots(h), [i]) && [i][0] == i;
    }
  }

  // ----- steps that leave live objects intact -----

  // The same entries, but for the keys of empty ones.
  ghost predicate SlotsAgree(s: seq<Slot>, s': seq<Slot>) {
    |s'| == |s| && forall k {:trigger s[k]} {:trigger s'[k]} :: 0 <= k < |s| ==>
      s'[k].val == s[k].val && (!s[k].val.Nil? ==> s'[k].key == s[k].key)
  }

  lemma AgreeRefs(s: seq<Slot>, s': seq<Slot>)
    requires SlotsAgree(s, s')
    ensures SlotsRefs(s') == SlotsRefs(s)
  {
    forall r | r in SlotsRefs(s) ensures r in SlotsRefs(s') {
      var k :| 0 <= k < |s| && r in SlotRefs(s[k]);
      assert r in SlotRefs(s'[k]);
    }
    forall r | r in SlotsRefs(s') ensures r in SlotsRefs(s) {
      var k :| 0 <= k < |s'| && r in SlotRefs(s'[k]);
      assert r in SlotRefs(s[k]);
    }
  }

  // What a program can see of object i is the same in both.
  ghost predicate Intact(body: Bodies, body': Bodies, i: Id)
    requires i in body
  {
    i in body' &&
    match body[i]
    case Table(meta, slots) => body'[i].Table? && body'[i].meta == meta && SlotsAgree(slots, body'[i].slots)
    case Thread(gt, _, top, _) =>
      body'[i].Thread? && body'[i].gt == gt && body'[i].top == top && LiveStack(body'[i]) == LiveStack(body[i])
    case UpVal(c) => body'[i].UpVal? && UpvalValue(body', body'[i].cell) == UpvalValue(body, c)
    case _ => body'[i] == body[i]
  }

  lemma IntactRefs(body: Bodies, body': Bodies, i: Id)
    requires i in body && Intact(body, body', i)
    ensures Refs(body', i) == Refs(body, i)
  {
    if body[i].Table? { AgreeRefs(body[i].slots, body'[i].slots); }
  }

  ghost predicate KeepsLive(h: Heap, h': Heap) {
    && h'.main == h.main && h'.running == h.running && h'.registry == h.registry && h'.mt == h.mt
    && forall i {:trigger Intact(h.body, h'.body, i)} :: i in h.body && Live(h, i) ==> Intact(h.body, h'.body, i)
  }

  // No live object dies.
  ghost predicate StaysLive(h: Heap, h': Heap) {
    forall i :: Live(h, i) ==> Live(h', i)
  }

  lemma KeptSet(h: Heap, h': Heap)
    requires Safe(h) && KeepsLive(h, h')
    ensures Roots(h') == Roots(h) <= ReachSet(h) && ClosedSet(h'.body, ReachSet(h))
    ensures forall i :: i in ReachSet(h) ==> i in h'.body && Refs(h'.body, i) == Refs(h.body, i)
  {
    hide Safe, Refs, ReachSet;
    ReachSetClosed(h);
    ReachSetIs(h);
    assert Roots(h') == Roots(h);
    hide Roots, Reachable;
    forall i | i in ReachSet(h) ensures i in h'.body && Refs(h'.body, i) == Refs(h.body, i) {
      ReachableLive(h, i);
      IntactRefs(h.body, h'.body, i);
    }
  }

  lemma ReachSetIs(h: Heap)
    ensures forall i :: i in ReachSet(h) <==> i in h.body && Reachable(h, i)
  {
  }

  // The same objects are reachable before and after.
  lemma SameReach(h: Heap, h': Heap)
    requires Safe(h) && KeepsLive(h, h')
    ensures forall i :: Reachable(h', i) <==> Reachable(h, i)
  {
    hide Safe, KeepsLive, Refs, Roots, ReachSet, ClosedSet;
    var s := ReachSet(h);
    KeptSet(h, h');
    ReachSetIs(h);
    forall i | Reachable(h', i) ensures Reachable(h, i) {
      var p :| Path(h'.body, Roots(h'), p) && p[|p| - 1] == i;
      PathInside(h'.body, Roots(h'), p, s);
    }
    forall i | Reachable(h, i) ensures Reachable(h', i) {
      var p :| Path(h.body, Roots(h), p) && p[|p| - 1] == i;
      SamePath(h, h', p);
    }
  }

  lemma SamePath(h: Heap, h': Heap, p: seq<Id>)
    requires Path(h.body, Roots(h), p) && Roots(h') == Roots(h)
    requires forall i :: i in ReachSet(h) ==> i in h'.body && Refs(h'.body, i) == Refs(h.body, i)
    ensures Path(h'.body, Roots(h'), p)
  {
    hide Refs, Roots, ReachSet;
    ReachSetIs(h);
    forall k | 0 <= k < |p| ensures p[k] in h'.body && Refs(h'.body, p[k]) == Refs(h.body, p[k]) {
      PrefixPath(h.body, Roots(h), p, k);
      assert p[k] in ReachSet(h);
    }
    forall k | 0 <= k < |p| - 1 ensures p[k + 1] in Refs(h'.body, p[k]) {
      assert p[k + 1] in Refs(h.body, p[k]);
    }
  }

  lemma PrefixPath(body: Bodies, roots: set<Id>, p: seq<Id>, k: nat)
    requires Path(body, roots, p) && k < |p|
    ensures p[k] in body && ReachableFrom(body, roots, p[k])
  {
    var q := p[..k + 1];
    assert Path(body, roots, q) by {
      forall j | 0 <= j < |q| - 1 ensures q[j + 1] in Refs(body, q[j]) {
        assert q[j + 1] == p[j + 1] && q[j] == p[j];
      }
    }
    assert q[|q| - 1] == p[k];
  }

  // ----- marking and tidying keep the structure -----

  // h' differs from h in colours, gray lists and cleared stack slots only.
  ghost predicate Marking(h: Heap, h': Heap) {
    && h' == h.(body := h'.body, marked := h'.marked, gray := h'.gray, grayagain := h'.grayagain, phase := h'.phase)
    && Tidied(h.body, h'.body) && h'.marked.Keys == h.marked.Keys
  }

  lemma OwnedLevels(h: Heap, hash: string -> nat)
    requires Owned(h, hash)
    ensures OpenLevels(h.body) && Tops(h.body)
  {
    forall i | i in h.body && h.body[i].Thread? ensures h.body[i].top <= |h.body[i].stack| {
      assert OpenList(h.body, i);
    }
    forall i | i in h.body && IsOpen(h.body[i])
      ensures var c := h.body[i].cell;
              c.th in h.body && h.body[c.th].Thread? && c.level < h.body[c.th].top <= |h.body[c.th].stack|
    {
      assert OpenList(h.body, h.body[i].cell.th);
    }
  }

  // Cleared stack slots change nothing about which object is what.
  ghost predicate SameShape(body: Bodies, body': Bodies) {
    body'.Keys == body.Keys &&
    forall i {:trigger body[i]} {:trigger body'[i]} :: i in body ==>
      (body'[i] == body[i] || (body[i].Table? && body'[i].Table?) ||
       (body[i].Thread? && body'[i].Thread? && body'[i].openupval == body[i].openupval &&
        body'[i].top == body[i].top && |body'[i].stack| == |body[i].stack|))
  }

  lemma TidiedShape(body: Bodies, body': Bodies)
    requires Tidied(body, body')
    ensures SameShape(body, body')
  {
  }

  lemma ShapeStrings(body: Bodies, body': Bodies, strt: seq<seq<Id>>, hash: string -> nat)
    requires StringTable(body, strt, hash) && SameShape(body, body')
    ensures StringTable(body', strt, hash)
  {
    forall i | i in body' && body'[i].Str? ensures i in strt[hash(body'[i].s) % |strt|] {
      assert body'[i] == body[i];
    }
    forall b, i | 0 <= b < |strt| && i in strt[b]
      ensures i in body' && body'[i].Str? && hash(body'[i].s) % |strt| == b && body'[i] == body[i]
    {
      assert body[i].Str?;
    }
  }

  lemma ShapeRoot(body: Bodies, body': Bodies, swept: seq<Id>, tosweep: seq<Id>)
    requires RootList(body, swept, tosweep) && SameShape(body, body')
    ensures RootList(body', swept, tosweep)
  {
  }

  lemma ShapeOpen(body: Bodies, body': Bodies, uvhead: seq<Id>)
    requires OpenLists(body, uvhead) && SameShape(body, body')
    ensures OpenLists(body', uvhead)
  {
    forall th | th in body' && body'[th].Thread? ensures OpenList(body', th) {
      assert OpenList(body, th);
      ShapeOpenList(body, body', th);
    }
    forall u | u in body' && IsOpen(body'[u])
      ensures var th := body'[u].cell.th; th in body' && body'[th].Thread? && u in body'[th].openupval
    {
      assert body'[u] == body[u];
    }
    forall u ensures u in uvhead <==> u in body' && IsOpen(body'[u]) {
      if u in body { assert IsOpen(body'[u]) == IsOpen(body[u]); }
    }
  }

  lemma ShapeOpenList(body: Bodies, body': Bodies, th: Id)
    requires SameShape(body, body') && th in body && body[th].Thread? && OpenList(body, th)
    ensures OpenList(body', th)
  {
    var l := body[th].openupval;
    forall u | u in l ensures u in body' && body'[u] == body[u] {
    }
    assert forall a :: 0 <= a < |l| ==> l[a] in l;
  }

  lemma ShapeKinds(body: Bodies, body': Bodies)
    requires NamesAreStrings(body) && SameShape(body, body')
    ensures NamesAreStrings(body') && body'.Keys == body.Keys
    ensures forall i :: i in body ==> (body[i].Str? ==> body'[i].Str?) && (body[i].Thread? ==> body'[i].Thread?)
  {
  }

  lemma MarkingOwned(h: Heap, h': Heap, hash: string -> nat)
    requires Owned(h, hash) && Marking(h, h')
    ensures Owned(h', hash)
  {
    hide RootList, StringTable, OpenLists, NamesBelow, NamesAreStrings, Tidied, SameShape;
    TidiedShape(h.body, h'.body);
    ShapeStrings(h.body, h'.body, h.strt, hash);
    ShapeRoot(h.body, h'.body, h.swept, h.tosweep);
    ShapeOpen(h.body, h'.body, h.uvhead);
    ShapeNames(h.body, h'.body, h.brk);
    ShapeKinds(h.body, h'.body);
  }

  lemma ShapeNames(body: Bodies, body': Bodies, brk: Id)
    requires NamesBelow(body, brk) && SameShape(body, body')
    ensures NamesBelow(body', brk)
  {
    forall i, n | i in body' && body'[i].Proto? && n in body'[i].names ensures n < brk {
      assert body'[i] == body[i];
    }
  }

  lemma MarkingSafe(h: Heap, h': Heap, hash: string -> nat)
    requires Owned(h, hash) && Safe(h) && Marking(h, h') && NoneDead(h) && NoneDead(h')
    ensures Safe(h')
  {
    hide Owned;
    OwnedLevels(h, hash);
    hide AllRefs, Owned;
    forall i, r | i in h'.body && Live(h', i) && r in AllRefs(h'.body, i) ensures Live(h', r) {
      TidiedOne(h.body, h'.body, i);
      assert r in AllRefs(h.body, i) && Live(h, i);
      assert Live(h, r);
    }
    forall i | i in Roots(h') ensures Live(h', i) {
      assert Live(h, i);
    }
  }

  lemma MarkingKeeps(h: Heap, h': Heap, hash: string -> nat)
    requires Owned(h, hash) && Marking(h, h')
    ensures KeepsLive(h, h')
  {
    hide Owned;
    OwnedLevels(h, hash);
    forall i | i in h.body && Live(h, i) ensures Intact(h.body, h'.body, i) {
      TidiedIntact(h.body, h'.body, i);
    }
  }

  lemma TidiedIntact(body: Bodies, body': Bodies, i: Id)
    requires Tidied(body, body') && OpenLevels(body) && Tops(body) && i in body
    ensures Intact(body, body', i)
  {
    assert body'[i] == body[i] || body'[i] == TidyBody(body[i]);
    if body[i].Thread? {
      TidyStack(body[i]);
    } else if body[i].UpVal? {
      TidiedValue(body, body', body[i].cell);
    }
  }

  lemma NoneDeadGrew(h: Heap, m': Colors, r: set<Id>)
    requires NoneDead(h) && Grew(h.marked, m', r)
    ensures NoneDead(h.(marked := m'))
  {
  }

  // The sweep starts anew: first at the string table, then over the whole root list.
  function SweepStart(h: Heap): Heap {
    h.(phase := SweepString, sweepstr := 0, swept := [], tosweep := h.swept + h.tosweep)
  }

  // At the end of the atomic phase every white object is garbage: the other white becomes current.
  lemma FlipSafe(h: Heap, h': Heap, hash: string -> nat)
    requires Owned(h, hash) && NoneDead(h) && Tri(h.body, h.marked, [], h.grayagain, {})
    requires forall i :: i in Roots(h) ==> Marked(h.marked, i)
    requires h' == SweepStart(h.(white := !h.white))
    ensures Inv(h', hash)
  {
    hide AllRefs, StringTable, OpenLists, NamesAreStrings;
    forall i, r | i in h'.body && Live(h', i) && r in AllRefs(h'.body, i) ensures Live(h', r) {
      assert Marked(h.marked, i);
      assert Settled(h.body, h.marked, i);
      assert Marked(h.marked, r);
    }
    FlipRoot(h.body, h.swept, h.tosweep);
    hide RootList;
    TableSize(h.body, h.strt, hash);
    forall i | i in Roots(h') ensures Live(h', i) {
      assert i in Roots(h);
    }
    assert Owned(h', hash);
    assert Safe(h');
    assert NeverBlack(h');
  }

  lemma TableSize(body: Bodies, strt: seq<seq<Id>>, hash: string -> nat)
    requires StringTable(body, strt, hash)
    ensures |strt| > 0
  {
  }

  lemma FlipRoot(body: Bodies, swept: seq<Id>, tosweep: seq<Id>)
    requires RootList(body, swept, tosweep)
    ensures RootList(body, [], swept + tosweep)
  {
    var l := swept + tosweep;
    forall a, b | 0 <= a < b < |l| ensures l[a] != l[b] {
      assert a < |swept| ==> l[a] in swept;
      assert b >= |swept| ==> l[b] in tosweep;
    }
    assert forall i :: i in l <==> i in swept || i in tosweep;
  }

  lemma AllWhite(h: Heap, hash: string -> nat, x: set<Id>)
    requires Owned(h, hash) && forall i :: i in h.marked ==> Current(h, i)
    ensures Tri(h.body, h.marked, [], [], x) && NoneDead(h)
  {
  }

  lemma MainThread(h: Heap, hash: string -> nat)
    requires Owned(h, hash)
    ensures h.main in h.body && h.body[h.main].Thread? && h.body.Keys == h.marked.Keys
  {
  }

  lemma RootMarked(h: Heap, h': Heap, hash: string -> nat, r: set<Id>)
    requires Owned(h, hash) && Safe(h) && (forall i :: i in h.marked ==> Current(h, i)) && Grew(h.marked, h'.marked, r)
    requires h' == h.(marked := h'.marked, gray := h'.gray, grayagain := [], phase := Propagate)
    requires Tri(h'.body, h'.marked, h'.gray, [], Ids(h'.uvhead))
    requires Marked(h'.marked, h.main) && forall i :: i in ValueRefs(h.registry) ==> Marked(h'.marked, i)
    ensures Inv(h', hash) && Marking(h, h') && forall i :: Marked(h'.marked, i) ==> i in r
  {
    assert Ids(h'.uvhead) + Ids([]) == Ids(h'.uvhead);
    NoneDeadGrew(h, h'.marked, r);
    MarkingOwned(h, h', hash);
    MarkingSafe(h, h', hash);
  }

  // An object on no gray list is white or settled already.
  lemma Painted(body: Bodies, marked: Colors, gray: seq<Id>, grayagain: seq<Id>, x: set<Id>, u: Id)
    requires Tri(body, marked, gray, grayagain, x) && u in body && IsOpen(body[u])
    ensures u in marked && (marked[u] != Gray ==> marked[u].White?)
  {
  }

  lemma NewlyMarked(m0: Colors, m1: Colors, r: set<Id>)
    requires Grew(m0, m1, r) && forall i :: Marked(m0, i) ==> i in r
    ensures forall i :: Marked(m1, i) ==> i in r
  {
    forall i | Marked(m1, i) ensures i in r {
      assert m1[i] == m0[i] || i in r;
    }
  }

  lemma PropagateParts(h: Heap, hash: string -> nat)
    requires Inv(h, hash) && h.phase == Propagate
    ensures Owned(h, hash) && Safe(h) && NoneDead(h)
    ensures Tri(h.body, h.marked, h.gray, h.grayagain, Ids(h.uvhead) + Ids(h.grayagain))
    ensures Marked(h.marked, h.main) && forall i :: i in ValueRefs(h.registry) ==> Marked(h.marked, i)
  {
  }

  lemma UvParts(h: Heap, hash: string -> nat)
    requires Owned(h, hash)
    ensures forall u :: u in h.uvhead ==> u in h.body && IsOpen(h.body[u])
    ensures h.running in h.body
  {
  }

  lemma AtomicEnds(h0: Heap, h1: Heap, h2: Heap, hash: string -> nat, r: set<Id>)
    requires Owned(h0, hash) && Safe(h0) && NoneDead(h0)
    requires h1 == h0.(body := h1.body, marked := h1.marked, gray := [], grayagain := h1.grayagain)
    requires Tidied(h0.body, h1.body)
    requires Advanced(h0.marked, h1.marked, r) && (forall i :: Marked(h1.marked, i) ==> i in r)
    requires Marked(h1.marked, h0.main) && (forall i :: i in ValueRefs(h0.registry) ==> Marked(h1.marked, i))
    requires Marked(h1.marked, h0.running) && (forall i :: i in MtRefs(h0.mt) ==> Marked(h1.marked, i))
    requires Tri(h1.body, h1.marked, [], h1.grayagain, {})
    requires h2 == SweepStart(h1.(white := !h1.white))
    ensures Inv(h2, hash) && KeepsLive(h0, h2) && h2.body.Keys == h0.body.Keys
    ensures forall i :: Live(h2, i) ==> i in r
  {
    hide Inv, Owned, Safe, Tri, Tidied, Advanced, NoneDead, Marking, Roots;
    AtomicMarked(h0, h1, hash, r);
    FlipSafe(h1, h2, hash);
    MarkingKeeps(h0, h1, hash);
    FlipKeeps(h0, h1, h2);
    LiveMarked(h1, h2, r);
    TidiedKeys(h0.body, h1.body);
  }

  lemma TidiedKeys(body: Bodies, body': Bodies)
    requires Tidied(body, body')
    ensures body'.Keys == body.Keys
  {
  }

  lemma RootParts(h: Heap, r: set<Id>)
    requires Roots(h) <= r
    ensures h.main in r && h.running in r && ValueRefs(h.registry) <= r && MtRefs(h.mt) <= r
  {
  }

  // With nothing gray left, the objects put off may be taken up again.
  lemma Regray(body: Bodies, marked: Colors, grayagain: seq<Id>, x: set<Id>)
    requires Tri(body, marked, [], grayagain, x) && forall i :: i in x ==> i in grayagain
    ensures Tri(body, marked, grayagain, [], {})
  {
  }

  lemma AtomicMarked(h: Heap, h': Heap, hash: string -> nat, r: set<Id>)
    requires Owned(h, hash) && Safe(h) && NoneDead(h)
    requires h' == h.(body := h'.body, marked := h'.marked, gray := [], grayagain := h'.grayagain)
    requires Tidied(h.body, h'.body)
    requires Advanced(h.marked, h'.marked, r)
    requires Marked(h'.marked, h.main) && (forall i :: i in ValueRefs(h.registry) ==> Marked(h'.marked, i))
    requires Marked(h'.marked, h.running) && forall i :: i in MtRefs(h.mt) ==> Marked(h'.marked, i)
    ensures forall i :: i in Roots(h') ==> Marked(h'.marked, i)
    ensures Marking(h, h') && Owned(h', hash) && NoneDead(h')
  {
    hide Owned;
    MarkingOwned(h, h', hash);
  }

  lemma FlipKeeps(h0: Heap, h1: Heap, h2: Heap)
    requires KeepsLive(h0, h1) && h2.body == h1.body && h2.main == h1.main && h2.running == h1.running &&
             h2.registry == h1.registry && h2.mt == h1.mt
    ensures KeepsLive(h0, h2)
  {
  }

  lemma LiveMarked(h: Heap, h': Heap, r: set<Id>)
    requires NoneDead(h) && h'.marked == h.marked && h'.white == !h.white && forall i :: Marked(h.marked, i) ==> i in r
    ensures forall i :: Live(h', i) ==> i in r
  {
  }

  // A step of propagation keeps the invariant of its phase.
  lemma PropagateKeeps(h: Heap, h': Heap, hash: string -> nat, r: set<Id>)
    requires Inv(h, hash) && h.phase == Propagate
    requires h' == h.(body := h'.body, marked := h'.marked, gray := h'.gray, grayagain := h'.grayagain)
    requires Tidied(h.body, h'.body) && Advanced(h.marked, h'.marked, r)
    requires (forall i :: i in h.grayagain ==> i in h'.grayagain)
    requires Tri(h'.body, h'.marked, h'.gray, h'.grayagain, Excused(h))
    ensures Inv(h', hash) && KeepsLive(h, h')
  {
    PropagateParts(h, hash);
    AdvancedMarks(h.marked, h'.marked, r);
    NoneDeadAdvanced(h, h', r);
    assert Marking(h, h');
    assert Excused(h) <= Excused(h');
    CoverMore(h'.body, h'.marked, h'.gray, h'.grayagain, Excused(h), Excused(h'));
    hide Tri, Owned, Safe, NoneDead, Marking, Excused, Tidied, Advanced;
    MarkingOwned(h, h', hash);
    MarkingSafe(h, h', hash);
    MarkingKeeps(h, h', hash);
  }

  lemma NoneDeadAdvanced(h: Heap, h': Heap, r: set<Id>)
    requires NoneDead(h) && Advanced(h.marked, h'.marked, r) && h'.white == h.white
    ensures NoneDead(h')
  {
    forall i | i in h'.marked ensures h'.marked[i] != White(!h'.white) {
      assert h'.marked[i].White? ==> h'.marked[i] == h.marked[i];
    }
  }

  // With nothing dead, all there is is a closed set.
  lemma AllClosed(h: Heap, hash: string -> nat)
    requires Owned(h, hash) && Safe(h) && NoneDead(h)
    ensures ClosedSet(h.body, h.body.Keys) && Roots(h) <= h.body.Keys
  {
    forall i, r | i in h.body && r in Refs(h.body, i) ensures r in h.body {
      RefsAreAll(h.body, i, r);
      assert Live(h, i);
      assert Live(h, r);
    }
    forall i | i in Roots(h) ensures i in h.body {
      assert Live(h, i);
    }
  }
}
