// Upvalues as the mutator makes and closes them.

module GCUpval {
  import opened GCHeap
  import opened GCInv
  import opened GCSweep
  import opened GCClose
  import opened GCWrite
  import opened GCAlloc
  import opened GCRevive

  // Two open upvalues for one slot are the same upvalue.
  lemma OneUpvalPerSlot(h: Heap, u: Id, v: Id, hash: string -> nat)
    requires Owned(h, hash) && u in h.body && v in h.body && IsOpen(h.body[u]) && h.body[v] == h.body[u]
    ensures u == v
  {
    var th := h.body[u].cell.th;
    OpenThreads(h, hash);
    assert OpenList(h.body, th);
    var l := h.body[th].openupval;
    var a :| 0 <= a < |l| && l[a] == u;
    var b :| 0 <= b < |l| && l[b] == v;
    LevelsOf(h.body, th);
    var x, y := LevelOf(h.body, l[a]), LevelOf(h.body, l[b]);
    assert a < b ==> x > y;
    assert b < a ==> y > x;
  }

  // ----- a new open upvalue -----

  function Opened(h: Heap, th: Id, level: nat, pos: nat): Heap
    requires th in h.body && h.body[th].Thread? && pos <= |h.body[th].openupval|
  {
    var l := h.body[th].openupval;
    h.(body := h.body[th := h.body[th].(openupval := l[..pos] + [h.brk] + l[pos..])][h.brk := UpVal(Open(th, level))],
       marked := h.marked[h.brk := White(h.white)], uvhead := [h.brk] + h.uvhead, brk := h.brk + 1)
  }

  // The place of level in a thread's list.
  ghost predicate Place(body: Bodies, l: seq<Id>, level: nat, pos: nat) {
    && pos <= |l|
    && (forall k :: 0 <= k < pos ==> LevelOf(body, l[k]) > level)
    && (forall k :: pos <= k < |l| ==> LevelOf(body, l[k]) < level)
  }

  lemma OpenedList(body: Bodies, body': Bodies, th: Id, id: Id, level: nat, pos: nat)
    requires th in body && body[th].Thread? && OpenList(body, th) && Place(body, body[th].openupval, level, pos)
    requires level < body[th].top
    requires th in body' && id in body' && body'[id] == UpVal(Open(th, level))
    requires var l := body[th].openupval; body'[th] == body[th].(openupval := l[..pos] + [id] + l[pos..])
    requires forall u :: u in body[th].openupval ==> u in body && u in body' && body'[u] == body[u]
    ensures OpenList(body', th)
  {
    var l, l' := body[th].openupval, body'[th].openupval;
    LevelsOf(body, th);
    InsertMembers(l, id, pos);
    forall u | u in l'
      ensures u in body' && IsOpen(body'[u]) && body'[u].cell.th == th && body'[u].cell.level < body'[th].top
    {
    }
    forall k | 0 <= k < |l| ensures LevelOf(body', l[k]) == LevelOf(body, l[k]) {
      var u := l[k];
      assert u in l;
    }
    InsertOrder(u => LevelOf(body', u), l, id, pos);
    OrderedList(body', th);
  }

  lemma InsertMembers(l: seq<Id>, id: Id, pos: nat)
    requires pos <= |l|
    ensures forall u :: u in l[..pos] + [id] + l[pos..] <==> u in l || u == id
  {
    assert l == l[..pos] + l[pos..];
  }

  lemma OrderedList(body: Bodies, th: Id)
    requires th in body && body[th].Thread? && body[th].top <= |body[th].stack|
    requires forall u :: u in body[th].openupval ==>
               u in body && IsOpen(body[u]) && body[u].cell.th == th && body[u].cell.level < body[th].top
    requires var l := body[th].openupval; forall a, b :: 0 <= a < b < |l| ==> LevelOf(body, l[a]) > LevelOf(body, l[b])
    ensures OpenList(body, th)
  {
    var l := body[th].openupval;
    forall a | 0 <= a < |l| ensures l[a] in body && IsOpen(body[l[a]]) && LevelOf(body, l[a]) == body[l[a]].cell.level {
      var u := l[a];
      assert u in l;
    }
  }

  // Inserting an element where it belongs keeps a strictly descending order.
  lemma InsertOrder(f: Id -> int, l: seq<Id>, id: Id, pos: nat)
    requires pos <= |l| && (forall a, b :: 0 <= a < b < |l| ==> f(l[a]) > f(l[b]))
    requires (forall k :: 0 <= k < pos ==> f(l[k]) > f(id)) && forall k :: pos <= k < |l| ==> f(l[k]) < f(id)
    ensures var l' := l[..pos] + [id] + l[pos..]; forall a, b :: 0 <= a < b < |l'| ==> f(l'[a]) > f(l'[b])
  {
    var l' := l[..pos] + [id] + l[pos..];
    forall a, b | 0 <= a < b < |l'| ensures f(l'[a]) > f(l'[b]) {
      if a < pos { assert l'[a] == l[a]; } else if a > pos { assert l'[a] == l[a - 1]; }
      if b < pos { assert l'[b] == l[b]; } else if b > pos { assert l'[b] == l[b - 1]; }
    }
  }

  lemma OpenedLists(h: Heap, th: Id, level: nat, pos: nat)
    requires OpenLists(h.body, h.uvhead) && h.brk !in h.body && h.brk !in h.uvhead
    requires th in h.body && h.body[th].Thread? && Place(h.body, h.body[th].openupval, level, pos)
    requires level < h.body[th].top
    ensures OpenLists(Opened(h, th, level, pos).body, Opened(h, th, level, pos).uvhead)
  {
    var h' := Opened(h, th, level, pos);
    var id, b, b', l := h.brk, h.body, h'.body, h.body[th].openupval;
    assert OpenList(b, th);
    Prepended(h.uvhead, id);
    forall t | t in b' && b'[t].Thread? ensures OpenList(b', t) {
      assert OpenList(b, t);
      if t == th {
        OpenedList(b, b', th, id, level, pos);
      } else {
        SameOpenList(b, b', t);
      }
    }
    forall u ensures u in h'.uvhead <==> u in b' && IsOpen(b'[u]) {
      assert u in h.uvhead <==> u in b && IsOpen(b[u]);
    }
    hide OpenList, Place;
    InsertMembers(l, id, pos);
    forall u | u in b' && IsOpen(b'[u])
      ensures var t := b'[u].cell.th; t in b' && b'[t].Thread? && u in b'[t].openupval
    {
      if u != id {
        assert b'[u] == b[u];
        assert u in b[b[u].cell.th].openupval;
      }
    }
  }

  lemma SameOpenList(body: Bodies, body': Bodies, t: Id)
    requires t in body && body[t].Thread? && OpenList(body, t) && t in body' && body'[t] == body[t]
    requires forall u :: u in body && IsOpen(body[u]) ==> u in body' && body'[u] == body[u]
    ensures OpenList(body', t)
  {
    var l := body[t].openupval;
    forall a | 0 <= a < |l| ensures l[a] in body && l[a] in body' && body'[l[a]] == body[l[a]] {
      var u := l[a];
      assert u in l;
    }
  }

  lemma OpenedOwned(h: Heap, th: Id, level: nat, pos: nat, hash: string -> nat)
    requires Owned(h, hash) && th in h.body && h.body[th].Thread? && Place(h.body, h.body[th].openupval, level, pos)
    requires level < h.body[th].top
    ensures Owned(Opened(h, th, level, pos), hash)
  {
    hide StringTable;
    var h' := Opened(h, th, level, pos);
    hide StringTable, OpenLists, RootList, NamesAreStrings, NamesBelow, Place;
    BrkNew(h, hash);
    PlaceIn(h.body, h.body[th].openupval, level, pos);
    OpenedLists(h, th, level, pos);
    assert h'.strt == h.strt;
    TableBelow(h, h', hash);
    OpenedRest(h, h', th);
  }

  lemma PlaceIn(body: Bodies, l: seq<Id>, level: nat, pos: nat)
    requires Place(body, l, level, pos)
    ensures pos <= |l|
  {
  }

  lemma OpenedRest(h: Heap, h': Heap, th: Id)
    requires RootList(h.body, h.swept, h.tosweep) && NamesAreStrings(h.body) && NamesBelow(h.body, h.brk)
    requires h.brk !in h.body
    requires th in h.body && h.body[th].Thread? && h.brk in h'.body && IsOpen(h'.body[h.brk]) && th in h'.body
    requires h'.body[th].Thread?
    requires forall i {:trigger h'.body[i]} :: i in h'.body && i != h.brk && i != th ==>
               i in h.body && h'.body[i] == h.body[i]
    requires h'.body.Keys == h.body.Keys + {h.brk}
    ensures RootList(h'.body, h.swept, h.tosweep) && NamesAreStrings(h'.body) && NamesBelow(h'.body, h.brk + 1)
  {
    forall i, n | i in h'.body && h'.body[i].Proto? && n in h'.body[i].names
      ensures i in h.body && h'.body[i] == h.body[i] && n < h.brk
    {
      assert n in h.body[i].names;
    }
    forall i | i in h.swept || i in h.tosweep ensures i in h'.body && OnRootList(h'.body[i]) {
      assert i in h.body && OnRootList(h.body[i]);
    }
  }

  lemma OpenedRefs(h: Heap, th: Id, level: nat, pos: nat, i: Id)
    requires th in h.body && h.body[th].Thread? && pos <= |h.body[th].openupval| && h.brk !in h.body && i in h.body
    requires h.brk != th
    requires IsOpen(h.body[i]) ==> h.body[i].cell.th in h.body
    ensures AllRefs(Opened(h, th, level, pos).body, i) == AllRefs(h.body, i)
  {
    var h' := Opened(h, th, level, pos);
    if IsOpen(h.body[i]) {
      assert UpvalValue(h'.body, h.body[i].cell) == UpvalValue(h.body, h.body[i].cell);
    }
  }

  lemma OpenedNew(h: Heap, th: Id, level: nat, pos: nat, hash: string -> nat)
    requires Owned(h, hash) && Safe(h) && th in h.body && h.body[th].Thread? && pos <= |h.body[th].openupval|
    requires Live(h, th) && level < |h.body[th].stack|
    ensures forall r :: r in AllRefs(Opened(h, th, level, pos).body, h.brk) ==> Live(h, r)
  {
    var h' := Opened(h, th, level, pos);
    BrkNew(h, hash);
    hide Owned;
    forall r | r in AllRefs(h'.body, h.brk) ensures Live(h, r) {
      assert h.body[th].stack[level] == Ref(r);
      assert r in ValuesRefs(h.body[th].stack);
      assert r in AllRefs(h.body, th);
    }
  }

  lemma OpenedSafe(h: Heap, th: Id, level: nat, pos: nat, hash: string -> nat)
    requires Owned(h, hash) && Safe(h) && th in h.body && h.body[th].Thread? && pos <= |h.body[th].openupval|
    requires Live(h, th) && level < |h.body[th].stack|
    ensures Safe(Opened(h, th, level, pos))
  {
    var h' := Opened(h, th, level, pos);
    BrkNew(h, hash);
    OpenThreads(h, hash);
    OpenedNew(h, th, level, pos, hash);
    SameRootsNew(h, h');
    assert h'.body.Keys == h.body.Keys + {h.brk};
    AllocLife(h, h', hash);
    hide AllRefs, Roots, Live, Owned, Opened;
    forall i, r | i in h'.body && Live(h', i) && r in AllRefs(h'.body, i) ensures Live(h', r) {
      if i != h.brk {
        OpenedRefs(h, th, level, pos, i);
      }
    }
  }

  lemma AllocLife(h: Heap, h': Heap, hash: string -> nat)
    requires Owned(h, hash) && h'.body.Keys == h.body.Keys + {h.brk}
    requires h'.marked == h.marked[h.brk := White(h.white)] && h'.white == h.white
    ensures forall i :: Live(h', i) <==> Live(h, i) || i == h.brk
  {
    BrkNew(h, hash);
  }

  lemma OpenedGray(h: Heap, th: Id, level: nat, pos: nat, hash: string -> nat)
    requires Owned(h, hash) && Tri(h.body, h.marked, h.gray, h.grayagain, Excused(h))
    requires th in h.body && h.body[th].Thread? && pos <= |h.body[th].openupval|
    ensures var h' := Opened(h, th, level, pos);
            Lists(h'.body, h'.marked, h'.gray, h'.grayagain) && Shades(h'.body, h'.marked) &&
            h'.body.Keys == h'.marked.Keys
  {
    hide Owned;
    BrkNew(h, hash);
    hide Owned, Cover, NamesAreStrings, Excused;
    assert h.brk !in h.gray && h.brk !in h.grayagain;
  }

  lemma OpenedTri(h: Heap, th: Id, level: nat, pos: nat, hash: string -> nat)
    requires Owned(h, hash) && Tri(h.body, h.marked, h.gray, h.grayagain, Excused(h))
    requires th in h.body && h.body[th].Thread? && pos <= |h.body[th].openupval|
    requires NamesAreStrings(Opened(h, th, level, pos).body)
    ensures var h' := Opened(h, th, level, pos); Tri(h'.body, h'.marked, h'.gray, h'.grayagain, Excused(h'))
  {
    hide Owned, AllRefs, Lists, Shades, NamesAreStrings;
    var h' := Opened(h, th, level, pos);
    BrkNew(h, hash);
    OpenThreads(h, hash);
    OpenedGray(h, th, level, pos, hash);
    forall i | i in h'.body && Marked(h'.marked, i) && i !in h'.gray && i !in Excused(h')
      ensures Settled(h'.body, h'.marked, i)
    {
      assert i != h.brk && i !in Excused(h);
      assert Settled(h.body, h.marked, i);
      OpenedRefs(h, th, level, pos, i);
      forall r | r in AllRefs(h'.body, i) ensures Marked(h'.marked, r) {
        assert Marked(h.marked, r);
      }
    }
  }

  lemma OpenedSweeps(h: Heap, th: Id, level: nat, pos: nat, hash: string -> nat)
    requires Owned(h, hash) && PhaseInv(h) && h.phase != Propagate && th in h.body && h.body[th].Thread?
    requires pos <= |h.body[th].openupval|
    ensures PhaseInv(Opened(h, th, level, pos))
  {
    hide Owned;
    var h' := Opened(h, th, level, pos);
    AllocCurrent(h, h', hash);
    BrkNew(h, hash);
    hide Owned;
    assert NeverBlack(h) ==> NeverBlack(h');
    forall n: nat | StringsSwept(h, n) ensures StringsSwept(h', n) {
      forall c, i | 0 <= c < n && c < |h'.strt| && i in h'.strt[c] ensures Current(h', i) {
        assert Current(h, i);
      }
    }
    if h.phase == Sweep {
      forall i | i in h'.swept ensures Current(h', i) {
        assert Current(h, i);
      }
      forall i, u | i in h'.swept && i in h'.body && h'.body[i].Thread? && u in h'.body[i].openupval
        ensures Current(h', u)
      {
        if u != h.brk {
          assert u in h.body[i].openupval by {
            if i == th {
              var l := h.body[th].openupval;
              assert u in l[..pos] || u in l[pos..];
            }
          }
          assert Current(h, u);
        }
      }
    }
  }

  lemma OpenedKeeps(h: Heap, th: Id, level: nat, pos: nat, hash: string -> nat)
    requires Inv(h, hash) && th in h.body && h.body[th].Thread? && Live(h, th)
    requires Place(h.body, h.body[th].openupval, level, pos) && level < h.body[th].top <= |h.body[th].stack|
    ensures Inv(Opened(h, th, level, pos), hash) && Live(Opened(h, th, level, pos), h.brk)
  {
    hide Owned;
    var h' := Opened(h, th, level, pos);
    hide StringTable, OpenLists, RootList, NamesAreStrings, NamesBelow, Safe, AllRefs, OpenList, Owned;
    OwnedOf(h, hash);
    BrkNew(h, hash);
    OpenedOwned(h, th, level, pos, hash);
    OpenedSafe(h, th, level, pos, hash);
    if h.phase == Propagate {
      PropagateParts(h, hash);
      StrNames(h', hash);
      OpenedTri(h, th, level, pos, hash);
      AllocCurrent(h, h', hash);
    } else {
      OpenedSweeps(h, th, level, pos, hash);
    }
  }

  // ----- closing, as the mutator does it -----

  ghost predicate Closable(h: Heap, th: Id) {
    th in h.body && h.body[th].Thread? && h.body[th].openupval != [] &&
    h.body[th].openupval[0] in h.body && h.body[h.body[th].openupval[0]].UpVal? && h.body[th].openupval[0] in h.marked
  }

  // While propagating, a closed upvalue that is gray turns black and needs the barrier.
  function CloseBlack(h: Heap, th: Id): Heap
    requires Closable(h, th)
  {
    var h1, u := CloseOne(h, th), h.body[th].openupval[0];
    if h.marked[u] == Gray then h1.(marked := h1.marked[u := Black]) else h1
  }

  // In the other phases it is made white.
  function CloseWhite(h: Heap, th: Id): Heap
    requires Closable(h, th)
  {
    var h1, u := CloseOne(h, th), h.body[th].openupval[0];
    if h.marked[u] == Gray then h1.(marked := h1.marked[u := White(h.white)]) else h1
  }

  lemma CloseTri(h: Heap, th: Id, hash: string -> nat)
    requires Owned(h, hash) && Closable(h, th) && Tri(h.body, h.marked, h.gray, h.grayagain, Excused(h))
    requires NamesAreStrings(CloseOne(h, th).body)
    ensures var h', u := CloseBlack(h, th), h.body[th].openupval[0];
            Tri(h'.body, h'.marked, h'.gray, h'.grayagain, Excused(h') + {u})
  {
    hide Owned, AllRefs, CloseOne, Intact, NamesAreStrings;
    var h1, h', u := CloseOne(h, th), CloseBlack(h, th), h.body[th].openupval[0];
    FirstOpen(h, th, hash);
    CloseShape(h, th, hash);
    forall i | i in h.body ensures AllRefs(h1.body, i) == AllRefs(h.body, i) {
      CloseRefs(h, th, hash, i);
    }
    SameLists(h.body, h'.body, h.marked, h'.marked, h.gray, h.grayagain, Excused(h), u);
    hide Lists, Shades;
    forall i | i in h'.body && Marked(h'.marked, i) && i !in h'.gray && i !in Excused(h') + {u}
      ensures Settled(h'.body, h'.marked, i)
    {
      assert i !in Excused(h);
      assert Settled(h.body, h.marked, i);
      forall r | r in AllRefs(h'.body, i) ensures Marked(h'.marked, r) {
        assert Marked(h.marked, r);
      }
    }
  }

  lemma SameLists(b: Bodies, b': Bodies, m: Colors, m': Colors, gray: seq<Id>, grayagain: seq<Id>, x: set<Id>, u: Id)
    requires Tri(b, m, gray, grayagain, x) && b'.Keys == b.Keys && u in b && IsOpen(b[u]) && b'[u].UpVal?
    requires b'[u].cell.Closed?
    requires m'.Keys == m.Keys && (m' == m || m' == m[u := Black]) && m'[u] != Gray
    requires forall i {:trigger b'[i]} {:trigger b[i]} :: i in b && i != u ==>
               (b'[i] == b[i] || (b[i].Thread? && b'[i].Thread?))
    ensures Lists(b', m', gray, grayagain) && Shades(b', m')
  {
    assert u !in gray && u !in grayagain;
    forall i | i in b' && i in m' && m'[i] == Gray && Listable(b'[i]) ensures i in gray || i in grayagain {
      assert i != u && m[i] == Gray && Listable(b[i]);
    }
    forall i | i in gray || i in grayagain ensures i in b' && i in m' && m'[i] == Gray && Listable(b'[i]) {
      assert i in b && m[i] == Gray && Listable(b[i]);
    }
    forall i | i in b' && i in m'
      ensures (m'[i] == Gray ==> Listable(b'[i]) || b'[i].Str? || IsOpen(b'[i])) &&
              (m'[i] == Black ==> !b'[i].Str? && !b'[i].Thread? && !IsOpen(b'[i]))
    {
      if i != u { assert m'[i] == m[i]; }
    }
  }

  lemma CloseBut(h: Heap, th: Id, hash: string -> nat)
    requires Inv(h, hash) && Closable(h, th) && h.phase == Propagate
    ensures var u := h.body[th].openupval[0]; InvBut(CloseBlack(h, th), u, UpvalValue(h.body, h.body[u].cell), hash)
  {
    hide Tri, Safe, Owned, CloseOne, NoneDead, LiveValue, UpvalValue, KeepsLive, Excused;
    var h1, h', u := CloseOne(h, th), CloseBlack(h, th), h.body[th].openupval[0];
    var v := UpvalValue(h.body, h.body[u].cell);
    PropagateParts(h, hash);
    FirstOpen(h, th, hash);
    CloseOwned(h, th, hash);
    CloseSafe(h, th, hash);
    CloseShape(h, th, hash);
    StrNames(h1, hash);
    CloseTri(h, th, hash);
    PropagateAlive(h, u, hash);
    UpvalLive(h, th, hash);
    NoneDeadOne(h, h1);
    BlackSame(h1, h', u, hash);
    ClosedRefs(h'.body, u, v);
    SameLiveValue(h, h', v);
  }

  lemma PropagateAlive(h: Heap, u: Id, hash: string -> nat)
    requires Owned(h, hash) && NoneDead(h) && u in h.body
    ensures Live(h, u)
  {
  }

  lemma NoneDeadOne(h: Heap, h1: Heap)
    requires NoneDead(h) && h1.marked == h.marked && h1.white == h.white && h1.body.Keys == h.body.Keys
    ensures NoneDead(h1) && forall i :: Live(h1, i) <==> Live(h, i)
  {
  }

  lemma ClosedRefs(body: Bodies, u: Id, v: Value)
    requires u in body && body[u] == UpVal(Closed(v))
    ensures AllRefs(body, u) == ValueRefs(v)
  {
  }

  lemma SameLiveValue(h: Heap, h': Heap, v: Value)
    requires LiveValue(h, v) && forall i :: Live(h', i) <==> Live(h, i)
    ensures LiveValue(h', v)
  {
  }

  lemma UpvalLive(h: Heap, th: Id, hash: string -> nat)
    requires Owned(h, hash) && Safe(h) && Closable(h, th) && Live(h, h.body[th].openupval[0])
    ensures var u := h.body[th].openupval[0]; LiveValue(h, UpvalValue(h.body, h.body[u].cell))
  {
    var u := h.body[th].openupval[0];
    hide Owned;
    assert AllRefs(h.body, u) == ValueRefs(UpvalValue(h.body, h.body[u].cell));
  }

  lemma BlackSame(h: Heap, h': Heap, u: Id, hash: string -> nat)
    requires Owned(h, hash) && Safe(h) && NoneDead(h) && u in h.marked
    requires h' == h || h' == h.(marked := h.marked[u := Black])
    ensures Owned(h', hash) && Safe(h') && NoneDead(h') && forall i :: Live(h', i) <==> Live(h, i)
    ensures forall i :: Marked(h.marked, i) ==> Marked(h'.marked, i)
  {
    hide Owned, Safe;
    if h' != h {
      assert forall i :: Live(h', i) <==> Live(h, i);
      BackOwned(h, h', hash);
      SameLife(h, h');
    }
  }

  // Whitening a gray open upvalue outside the propagate phase.
  lemma WhitenOpen(h: Heap, u: Id, hash: string -> nat)
    requires Inv(h, hash) && h.phase != Propagate && u in h.body && u in h.marked && h.marked[u] == Gray
    ensures Inv(h.(marked := h.marked[u := White(h.white)]), hash)
  {
    var h' := h.(marked := h.marked[u := White(h.white)]);
    assert forall i :: Live(h', i) <==> Live(h, i);
    BackOwned(h, h', hash);
    SameLife(h, h');
    hide Owned, Safe;
    WhitenPhase(h, h', u);
  }

  lemma WhitenPhase(h: Heap, h': Heap, u: Id)
    requires PhaseInv(h) && h.phase != Propagate && u in h.marked && h.marked[u] == Gray
    requires h' == h.(marked := h.marked[u := White(h.white)])
    ensures PhaseInv(h')
  {
    forall i | Current(h, i) ensures Current(h', i) {
    }
    assert !Current(h, u);
    assert NeverBlack(h) ==> NeverBlack(h');
    forall n: nat | StringsSwept(h, n) ensures StringsSwept(h', n) {
      forall b, i | 0 <= b < n && b < |h'.strt| && i in h'.strt[b] ensures Current(h', i) {
        assert Current(h, i);
      }
    }
    if h.phase == Sweep {
      forall i | i in h'.swept ensures Current(h', i) {
        assert Current(h, i);
      }
      forall i, v | i in h'.swept && i in h'.body && h'.body[i].Thread? && v in h'.body[i].openupval
        ensures Current(h', v)
      {
        assert Current(h, v);
      }
    }
  }

  // Closing an upvalue that is in the current white, outside the propagate phase.
  lemma CloseCurrent(h: Heap, th: Id, hash: string -> nat)
    requires Inv(h, hash) && Closable(h, th) && h.phase != Propagate && Current(h, h.body[th].openupval[0])
    ensures Inv(CloseOne(h, th), hash)
  {
    hide CloseOne, Safe, Owned, KeepsLive, UpvalValue;
    var h', u := CloseOne(h, th), h.body[th].openupval[0];
    CloseOwned(h, th, hash);
    CloseSafe(h, th, hash);
    CloseShape(h, th, hash);
    FirstOpen(h, th, hash);
    if h.phase == Sweep {
      CloseColors(h, th, hash);
    } else {
      forall i | Current(h, i) ensures Current(h', i) {
      }
      forall n: nat | StringsSwept(h, n) ensures StringsSwept(h', n) {
        forall b, i | 0 <= b < n && b < |h'.strt| && i in h'.strt[b] ensures Current(h', i) {
          assert Current(h, i);
        }
      }
      forall i | i in h'.body && i in h'.marked && h'.marked[i] == Black && NeverBlack(h)
        ensures !h'.body[i].Str? && !h'.body[i].Thread? && !IsOpen(h'.body[i])
      {
        if i != u && i != th { assert h'.body[i] == h.body[i]; }
      }
    }
  }

  lemma CloseWhiteKeeps(h: Heap, th: Id, hash: string -> nat)
    requires Inv(h, hash) && Closable(h, th) && h.phase != Propagate && !Dead(h, h.body[th].openupval[0])
    ensures Inv(CloseWhite(h, th), hash)
  {
    var u := h.body[th].openupval[0];
    OpenNotBlack(h, th, hash);
    if h.marked[u] == Gray {
      var h1 := h.(marked := h.marked[u := White(h.white)]);
      WhitenOpen(h, u, hash);
      CloseCurrent(h1, th, hash);
      assert CloseOne(h1, th) == CloseWhite(h, th);
    } else {
      CloseCurrent(h, th, hash);
    }
  }

  lemma OpenNotBlack(h: Heap, th: Id, hash: string -> nat)
    requires Inv(h, hash) && Closable(h, th) && h.phase != Propagate
    ensures h.marked[h.body[th].openupval[0]] != Black
  {
    var u := h.body[th].openupval[0];
    FirstOpen(h, th, hash);
    hide Owned, Safe;
    assert h.phase == Pause || h.phase == Finalize ==> Current(h, u);
  }

  // A dead upvalue that is closed is freed.
  lemma DropKeeps(h: Heap, th: Id, hash: string -> nat)
    requires Inv(h, hash) && Closable(h, th) && Dead(h, h.body[th].openupval[0])
    ensures Inv(DropOne(h, th), hash)
  {
    hide DropOne, Safe, Owned, KeepsLive, Keep;
    var h', u := DropOne(h, th), h.body[th].openupval[0];
    DropOwned(h, th, hash);
    DropSafe(h, th, hash);
    DropShape(h, th, hash);
    FirstOpen(h, th, hash);
    StringIds(h, hash);
    SweptIds(h, hash);
    assert h.phase == Propagate ==> !Dead(h, u);
    forall i | Current(h, i) ensures Current(h', i) {
    }
    assert NeverBlack(h) ==> NeverBlack(h');
    forall n: nat | StringsSwept(h, n) ensures StringsSwept(h', n) {
      forall b, i | 0 <= b < n && b < |h'.strt| && i in h'.strt[b] ensures Current(h', i) {
        assert Current(h, i);
      }
    }
    if h.phase == Sweep {
      forall i | i in h'.swept ensures Current(h', i) {
        assert Current(h, i);
      }
      forall i, v | i in h'.swept && i in h'.body && h'.body[i].Thread? && v in h'.body[i].openupval
        ensures Current(h', v)
      {
        assert v in h.body[i].openupval;
        assert Current(h, v);
      }
    }
  }

  // ----- closing changes nothing a program can read -----

  lemma CloseIntact(h: Heap, th: Id, hash: string -> nat)
    requires Owned(h, hash) && Closable(h, th)
    ensures forall i {:trigger Intact(h.body, CloseOne(h, th).body, i)} :: i in h.body ==>
              Intact(h.body, CloseOne(h, th).body, i)
  {
    hide Owned;
    FirstOpen(h, th, hash);
    var u, body' := h.body[th].openupval[0], CloseOne(h, th).body;
    assert body' == h.body[th := h.body[th].(openupval := h.body[th].openupval[1..])][u :=
          UpVal(Closed(UpvalValue(h.body, h.body[u].cell)))];
    forall i | i in h.body ensures Intact(h.body, body', i) {
      if h.body[i].Table? { assert body'[i] == h.body[i]; SlotsAgreeSelf(h.body[i].slots); }
    }
  }

  lemma SlotsAgreeSelf(slots: seq<Slot>)
    ensures SlotsAgree(slots, slots)
  {
  }

  lemma DropIntact(h: Heap, th: Id, hash: string -> nat)
    requires Owned(h, hash) && Closable(h, th)
    ensures var u := h.body[th].openupval[0];
            forall i {:trigger Intact(h.body, DropOne(h, th).body, i)} :: i in h.body && i != u ==>
              Intact(h.body, DropOne(h, th).body, i)
  {
    hide Owned;
    FirstOpen(h, th, hash);
    var u, body' := h.body[th].openupval[0], DropOne(h, th).body;
    assert body' == h.body[th := h.body[th].(openupval := h.body[th].openupval[1..])] - {u};
    forall i | i in h.body && i != u ensures Intact(h.body, body', i) {
      if h.body[i].Table? { assert body'[i] == h.body[i]; SlotsAgreeSelf(h.body[i].slots); }
    }
  }
}
