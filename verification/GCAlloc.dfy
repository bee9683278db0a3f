// New objects: they get the current white and join a list, whatever the phase.

module GCAlloc {
  import opened GCHeap
  import opened GCInv
  import opened GCSweep
  import opened GCClose
  import opened GCWrite

  // The references of a new object; a new thread has no open upvalues.
  function NewRefs(b: Body): set<Id> {
    if b.Thread? then ValueRefs(b.gt) + ValuesRefs(b.stack) else if IsOpen(b) then {} else OwnRefs(b)
  }

  ghost predicate Fitting(h: Heap, b: Body) {
    && OnRootList(b) && (forall r :: r in NewRefs(b) ==> Live(h, r))
    && (b.Thread? ==> b.openupval == [] && b.top <= |b.stack|)
    && (b.Proto? ==> forall n :: n in b.names ==> n in h.body && h.body[n].Str?)
  }

  // id has joined rootgc, on either side of the sweep; before the first turn of the
  // sweep that is the side still to be swept.
  ghost predicate JoinsRoot(h: Heap, h': Heap, id: Id) {
    && Distinct(h'.swept) && Distinct(h'.tosweep) && (h.swept == [] ==> h'.swept == [])
    && ((h'.tosweep == h.tosweep && forall i :: i in h'.swept <==> i in h.swept || i == id) ||
        (h'.swept == h.swept && forall i :: i in h'.tosweep <==> i in h.tosweep || i == id))
  }

  ghost predicate Allocated(h: Heap, h': Heap, b: Body) {
    h' == h.(body := h.body[h.brk := b], marked := h.marked[h.brk := White(h.white)], brk := h.brk + 1,
             swept := h'.swept, tosweep := h'.tosweep)
  }

  lemma BrkNew(h: Heap, hash: string -> nat)
    requires Owned(h, hash)
    ensures h.brk !in h.body && h.brk !in h.marked && h.brk !in h.swept && h.brk !in h.tosweep && h.brk !in h.uvhead
    ensures h.body.Keys == h.marked.Keys
    ensures forall b, i {:trigger i in h.strt[b]} :: 0 <= b < |h.strt| && i in h.strt[b] ==> i != h.brk
  {
    SweptIds(h, hash);
    UvParts(h, hash);
    StringIds(h, hash);
  }

  lemma AllocOwned(h: Heap, h': Heap, b: Body, hash: string -> nat)
    requires Owned(h, hash) && Fitting(h, b) && Allocated(h, h', b) && JoinsRoot(h, h', h.brk)
    ensures Owned(h', hash)
  {
    hide RootList, StringTable, OpenLists, NamesAreStrings, NamesBelow;
    BrkNew(h, hash);
    SweptIds(h, hash);
    assert h'.body == h.body[h.brk := b] && h'.strt == h.strt;
    AllocRoot(h, h', b);
    TableBelow(h, h', hash);
    AllocOpen(h, h', b);
    AllocNames(h, h', b);
    assert h'.body.Keys == h'.marked.Keys;
  }

  lemma AllocRoot(h: Heap, h': Heap, b: Body)
    requires RootList(h.body, h.swept, h.tosweep) && OnRootList(b) && Allocated(h, h', b) && JoinsRoot(h, h', h.brk)
    requires h.brk !in h.body && h.brk !in h.swept && h.brk !in h.tosweep
    ensures RootList(h'.body, h'.swept, h'.tosweep)
  {
    forall i | i in h'.swept || i in h'.tosweep ensures i in h'.body && OnRootList(h'.body[i]) {
      if i != h.brk { assert i in h.swept || i in h.tosweep; }
    }
  }

  lemma AllocOpen(h: Heap, h': Heap, b: Body)
    requires OpenLists(h.body, h.uvhead) && h.brk !in h.body && h.brk !in h.uvhead && h'.body == h.body[h.brk := b]
    requires OnRootList(b) && (b.Thread? ==> b.openupval == [] && b.top <= |b.stack|)
    ensures OpenLists(h'.body, h.uvhead)
  {
    forall t | t in h'.body && h'.body[t].Thread? ensures OpenList(h'.body, t) {
      if t != h.brk {
        assert OpenList(h.body, t);
        var l := h.body[t].openupval;
        forall u | u in l ensures u in h'.body && h'.body[u] == h.body[u] {
        }
        assert forall a :: 0 <= a < |l| ==> l[a] in l;
      }
    }
    forall u ensures u in h.uvhead <==> u in h'.body && IsOpen(h'.body[u]) {
      assert u in h.uvhead <==> u in h.body && IsOpen(h.body[u]);
    }
  }

  lemma AllocNames(h: Heap, h': Heap, b: Body)
    requires NamesAreStrings(h.body) && NamesBelow(h.body, h.brk) && h.brk !in h.body && h'.body == h.body[h.brk := b]
    requires forall i :: i in h.body ==> i < h.brk
    requires b.Proto? ==> forall n :: n in b.names ==> n in h.body && h.body[n].Str?
    ensures NamesAreStrings(h'.body) && NamesBelow(h'.body, h.brk + 1)
  {
    forall i, n | i in h'.body && h'.body[i].Proto? && n in h'.body[i].names ensures n < h.brk {
      if i != h.brk { assert n in h.body[i].names; }
    }
  }

  // ----- life, colours -----

  lemma AllocRefs(body: Bodies, id: Id, b: Body, i: Id)
    requires id !in body && i in body && (IsOpen(body[i]) ==> body[i].cell.th in body)
    ensures AllRefs(body[id := b], i) == AllRefs(body, i)
  {
  }

  lemma NewAllRefs(body: Bodies, id: Id, b: Body)
    requires !IsOpen(b)
    ensures AllRefs(body[id := b], id) == NewRefs(b)
  {
  }

  lemma AllocSafe(h: Heap, h': Heap, b: Body, hash: string -> nat)
    requires Owned(h, hash) && Safe(h)
    requires h'.body == h.body[h.brk := b] && h'.marked == h.marked[h.brk := White(h.white)] && h'.white == h.white
    requires Roots(h') == Roots(h)
    requires forall r :: r in AllRefs(h'.body, h.brk) ==> Live(h, r)
    ensures Safe(h')
  {
    BrkNew(h, hash);
    OpenThreads(h, hash);
    assert forall i :: Live(h', i) <==> Live(h, i) || i == h.brk;
    hide AllRefs, Roots, Live, Owned;
    forall i, r | i in h'.body && Live(h', i) && r in AllRefs(h'.body, i) ensures Live(h', r) {
      if i != h.brk {
        AllocRefs(h.body, h.brk, b, i);
      }
    }
  }

  lemma AllocTri(h: Heap, h': Heap, b: Body, x: set<Id>, hash: string -> nat)
    requires Owned(h, hash) && Tri(h.body, h.marked, h.gray, h.grayagain, x) && NamesAreStrings(h'.body)
    requires h'.body == h.body[h.brk := b] && h'.marked == h.marked[h.brk := White(h.white)]
    ensures Tri(h'.body, h'.marked, h.gray, h.grayagain, x)
  {
    hide StringTable;
    BrkNew(h, hash);
    OpenThreads(h, hash);
    hide Owned;
    assert h.brk !in h.gray && h.brk !in h.grayagain;
    hide AllRefs;
    forall i | i in h'.body && Marked(h'.marked, i) && i !in h.gray && i !in x ensures Settled(h'.body, h'.marked, i) {
      assert i != h.brk;
      assert Settled(h.body, h.marked, i);
      AllocRefs(h.body, h.brk, b, i);
      forall r | r in AllRefs(h'.body, i) ensures Marked(h'.marked, r) {
        assert Marked(h.marked, r);
      }
    }
  }

  lemma AllocCurrent(h: Heap, h': Heap, hash: string -> nat)
    requires Owned(h, hash) && h'.marked == h.marked[h.brk := White(h.white)] && h'.white == h.white
    ensures forall i :: Current(h', i) <==> Current(h, i) || i == h.brk
    ensures NoneDead(h) ==> NoneDead(h')
  {
    BrkNew(h, hash);
  }

  // A new object that is neither a string nor an open upvalue.
  lemma AllocKeeps(h: Heap, h': Heap, b: Body, hash: string -> nat)
    requires Inv(h, hash) && Fitting(h, b) && Allocated(h, h', b) && JoinsRoot(h, h', h.brk)
    ensures Inv(h', hash) && Live(h', h.brk)
  {
    hide StringTable, OpenLists, RootList, NamesAreStrings, NamesBelow, Safe, Owned, AllRefs, OwnRefs;
    OwnedOf(h, hash);
    AllocOwned(h, h', b, hash);
    NewAllRefs(h.body, h.brk, b);
    AllocSafe(h, h', b, hash);
    AllocCurrent(h, h', hash);
    if h.phase == Propagate {
      PropagateParts(h, hash);
      StrNames(h', hash);
      AllocTri(h, h', b, Excused(h), hash);
    } else {
      AllocSweeps(h, h', b, hash);
    }
  }

  lemma OwnedOf(h: Heap, hash: string -> nat)
    requires Inv(h, hash)
    ensures Owned(h, hash) && Safe(h)
  {
  }

  lemma StrNames(h: Heap, hash: string -> nat)
    requires Owned(h, hash)
    ensures NamesAreStrings(h.body)
  {
  }

  lemma AllocSweeps(h: Heap, h': Heap, b: Body, hash: string -> nat)
    requires Owned(h, hash) && PhaseInv(h) && h.phase != Propagate && Fitting(h, b) && Allocated(h, h', b)
    requires JoinsRoot(h, h', h.brk)
    ensures PhaseInv(h')
  {
    hide Owned;
    AllocCurrent(h, h', hash);
    BrkNew(h, hash);
    SweptIds(h, hash);
    hide Owned;
    assert NeverBlack(h) ==> NeverBlack(h');
    forall n: nat | StringsSwept(h, n) ensures StringsSwept(h', n) {
      forall c, i | 0 <= c < n && c < |h'.strt| && i in h'.strt[c] ensures Current(h', i) {
        assert Current(h, i);
      }
    }
    if h.phase == Sweep {
      forall i | i in h'.swept ensures Current(h', i) {
        assert i == h.brk || Current(h, i);
      }
      forall i, u | i in h'.swept && i in h'.body && h'.body[i].Thread? && u in h'.body[i].openupval
        ensures Current(h', u)
      {
        assert i != h.brk && i in h.swept;
        assert Current(h, u);
      }
    }
  }

  // luaC_link puts the object first.
  lemma LinkJoins(h: Heap, h': Heap, hash: string -> nat)
    requires Owned(h, hash)
    requires (if h.swept == [] then h'.swept == [] && h'.tosweep == [h.brk] + h.tosweep
              else h'.swept == [h.brk] + h.swept && h'.tosweep == h.tosweep)
    ensures JoinsRoot(h, h', h.brk)
  {
    BrkNew(h, hash);
    RootDistinct(h, hash);
    Prepended(h.swept, h.brk);
    Prepended(h.tosweep, h.brk);
  }

  lemma RootDistinct(h: Heap, hash: string -> nat)
    requires Owned(h, hash)
    ensures Distinct(h.swept) && Distinct(h.tosweep) && (h.main in h.swept || h.main in h.tosweep)
  {
    assert OnRootList(h.body[h.main]);
  }

  // luaS_newudata puts it behind the main thread.
  function After(l: seq<Id>, m: Id, id: Id): (l': seq<Id>)
    ensures m in l ==> forall i :: i in l' <==> i in l || i == id
  {
    if l == [] then [] else if l[0] == m then [m, id] + l[1..] else [l[0]] + After(l[1..], m, id)
  }

  lemma {:induction false} AfterDistinct(l: seq<Id>, m: Id, id: Id)
    requires Distinct(l) && id !in l && m in l
    ensures Distinct(After(l, m, id))
    decreases l
  {
    TailDistinct(l);
    assert l == [l[0]] + l[1..];
    if l[0] == m {
      Prepended(l[1..], id);
      Prepended([id] + l[1..], m);
      assert [m] + ([id] + l[1..]) == [m, id] + l[1..];
    } else {
      AfterDistinct(l[1..], m, id);
      Prepended(After(l[1..], m, id), l[0]);
    }
  }

  // Where a new userdata goes: the sweep pointer may be the main thread's own link.
  function LinkUdata(h: Heap): (seq<Id>, seq<Id>) {
    if h.swept != [] && h.swept[|h.swept| - 1] == h.main then (h.swept, [h.brk] + h.tosweep)
    else if h.main in h.swept then (After(h.swept, h.main, h.brk), h.tosweep)
    else (h.swept, After(h.tosweep, h.main, h.brk))
  }

  lemma UdataJoins(h: Heap, h': Heap, hash: string -> nat)
    requires Owned(h, hash) && (h'.swept, h'.tosweep) == LinkUdata(h)
    ensures JoinsRoot(h, h', h.brk)
  {
    BrkNew(h, hash);
    RootDistinct(h, hash);
    hide Owned;
    if h.swept != [] && h.swept[|h.swept| - 1] == h.main {
      Prepended(h.tosweep, h.brk);
    } else if h.main in h.swept {
      AfterDistinct(h.swept, h.main, h.brk);
    } else {
      AfterDistinct(h.tosweep, h.main, h.brk);
    }
  }
}
