// Writes to a thread's stack, which need no barrier: threads are never black, and the
// values of open upvalues are marked again in the atomic phase.

module GCStack {
  import opened GCHeap
  import opened GCInv
  import opened GCSweep
  import opened GCClose
  import opened GCWrite

  // b' is b with another stack, top or table of globals; whatever is new in it is live.
  ghost predicate StackWrite(h: Heap, b: Body, b': Body) {
    && b.Thread? && b'.Thread? && b'.openupval == b.openupval && b'.top <= |b'.stack|
    && (b'.gt == b.gt || LiveValue(h, b'.gt))
    && forall k {:trigger b'.stack[k]} :: 0 <= k < |b'.stack| ==>
         (k < |b.stack| && b'.stack[k] == b.stack[k]) || LiveValue(h, b'.stack[k])
  }

  // The open upvalues stay below the top, in slots that exist.
  ghost predicate OpenBelow(body: Bodies, b: Body, top: nat)
    requires b.Thread?
  {
    forall u :: u in b.openupval && u in body && IsOpen(body[u]) ==>
      body[u].cell.level < top && body[u].cell.level < |b.stack|
  }

  lemma StackOwned(h: Heap, th: Id, b': Body, hash: string -> nat)
    requires Owned(h, hash) && th in h.body && h.body[th].Thread? && StackWrite(h, h.body[th], b')
    requires OpenBelow(h.body, h.body[th], b'.top)
    ensures Owned(Updated(h, th, b'), hash)
  {
    hide RootList, StringTable, OpenLists, NamesAreStrings, NamesBelow, OpenBelow;
    var h' := Updated(h, th, b');
    TableBelow(h, h', hash);
    StackRest(h, th, b');
    StackOpen(h.body, th, b', h.uvhead);
  }

  lemma StackRest(h: Heap, th: Id, b': Body)
    requires RootList(h.body, h.swept, h.tosweep) && NamesAreStrings(h.body) && NamesBelow(h.body, h.brk)
    requires th in h.body && h.body[th].Thread? && b'.Thread?
    ensures RootList(h.body[th := b'], h.swept, h.tosweep) && NamesAreStrings(h.body[th := b'])
    ensures NamesBelow(h.body[th := b'], h.brk)
  {
  }

  lemma StackOpen(body: Bodies, th: Id, b': Body, uvhead: seq<Id>)
    requires OpenLists(body, uvhead) && th in body && body[th].Thread?
    requires OpenBelow(body, body[th], if b'.Thread? then b'.top else 0)
    requires b'.Thread? && b'.openupval == body[th].openupval && b'.top <= |b'.stack|
    ensures OpenLists(body[th := b'], uvhead)
  {
    var body' := body[th := b'];
    forall t | t in body' && body'[t].Thread? ensures OpenList(body', t) {
      assert OpenList(body, t);
      var l := body[t].openupval;
      forall u | u in l ensures u in body' && body'[u] == body[u] && (t == th ==> body[u].cell.level < b'.top) {
        assert IsOpen(body[u]);
      }
      assert forall a :: 0 <= a < |l| ==> l[a] in l;
    }
    forall u ensures u in uvhead <==> u in body' && IsOpen(body'[u]) {
      assert u in uvhead <==> u in body && IsOpen(body[u]);
    }
    forall u | u in body' && IsOpen(body'[u])
      ensures var t := body'[u].cell.th; t in body' && body'[t].Thread? && u in body'[t].openupval
    {
      assert IsOpen(body[u]);
    }
  }

  // Every reference after the write was there before, or is to something live.
  lemma StackRefs(h: Heap, th: Id, b': Body, i: Id, r: Id, hash: string -> nat)
    requires Owned(h, hash) && th in h.body && h.body[th].Thread? && StackWrite(h, h.body[th], b') && i in h.body
    requires r in AllRefs(Updated(h, th, b').body, i)
    ensures r in AllRefs(h.body, i) || Live(h, r)
  {
    hide Owned, StackWrite, AllRefs, UpvalValue, ValueRefs, ValuesRefs, Live;
    OwnedLevels(h, hash);
    KindRefs(h.body, i);
    KindRefs(Updated(h, th, b').body, i);
    assert b'.Thread? by { WriteThread(h, h.body[th], b'); }
    if i == th {
      OwnStackRefs(h, h.body[th], b', r);
    } else if IsOpen(h.body[i]) && h.body[i].cell.th == th {
      var c := h.body[i].cell;
      assert c.level < |h.body[th].stack|;
      CellRef(h, th, b', c, r);
    } else {
      OtherRefs(h, th, b', i);
    }
  }

  lemma WriteThread(h: Heap, b: Body, b': Body)
    requires StackWrite(h, b, b')
    ensures b'.Thread?
  {
  }

  lemma KindRefs(body: Bodies, i: Id)
    requires i in body
    ensures body[i].Thread? ==> AllRefs(body, i) == ValueRefs(body[i].gt) + ValuesRefs(body[i].stack)
    ensures body[i].UpVal? ==> AllRefs(body, i) == ValueRefs(UpvalValue(body, body[i].cell))
  {
  }

  lemma OtherRefs(h: Heap, th: Id, b': Body, i: Id)
    requires th in h.body && i in h.body && i != th && !(IsOpen(h.body[i]) && h.body[i].cell.th == th)
    ensures AllRefs(Updated(h, th, b').body, i) == AllRefs(h.body, i)
  {
    if IsOpen(h.body[i]) {
      assert UpvalValue(Updated(h, th, b').body, h.body[i].cell) == UpvalValue(h.body, h.body[i].cell);
    }
  }

  lemma CellRef(h: Heap, th: Id, b': Body, c: Cell, r: Id)
    requires th in h.body && h.body[th].Thread? && StackWrite(h, h.body[th], b') && c.Open? && c.th == th
    requires c.level < |h.body[th].stack|
    requires r in ValueRefs(UpvalValue(Updated(h, th, b').body, c))
    ensures r in ValueRefs(UpvalValue(h.body, c)) || Live(h, r)
  {
    SlotRef(h, h.body[th], b', c.level, r);
  }

  lemma SlotRef(h: Heap, b: Body, b': Body, k: nat, r: Id)
    requires StackWrite(h, b, b') && k < |b.stack|
    requires k < |b'.stack| && r in ValueRefs(b'.stack[k])
    ensures r in ValueRefs(b.stack[k]) || Live(h, r)
  {
    assert b'.stack[k] == b.stack[k] || LiveValue(h, b'.stack[k]);
  }

  lemma OwnStackRefs(h: Heap, b: Body, b': Body, r: Id)
    requires StackWrite(h, b, b') && r in ValueRefs(b'.gt) + ValuesRefs(b'.stack)
    ensures r in ValueRefs(b.gt) + ValuesRefs(b.stack) || Live(h, r)
  {
    if r in ValuesRefs(b'.stack) {
      var k :| 0 <= k < |b'.stack| && b'.stack[k].Ref? && b'.stack[k].id == r;
      assert (k < |b.stack| && b'.stack[k] == b.stack[k]) || LiveValue(h, b'.stack[k]);
      assert r in ValueRefs(b'.stack[k]);
    }
  }

  lemma StackSame(h: Heap, th: Id, b': Body, i: Id)
    requires th in h.body && h.body[th].Thread? && b'.Thread? && i in h.body && i != th && !IsOpen(h.body[i])
    ensures AllRefs(Updated(h, th, b').body, i) == AllRefs(h.body, i)
  {
  }

  lemma StackSafe(h: Heap, th: Id, b': Body, hash: string -> nat)
    requires Owned(h, hash) && Safe(h) && th in h.body && h.body[th].Thread? && StackWrite(h, h.body[th], b')
    ensures Safe(Updated(h, th, b'))
  {
    var h' := Updated(h, th, b');
    assert Roots(h') == Roots(h);
    assert forall i :: Live(h', i) <==> Live(h, i);
    hide AllRefs, Roots, Live, Owned, StackWrite;
    forall i, r | i in h'.body && Live(h', i) && r in AllRefs(h'.body, i) ensures Live(h', r) {
      StackRefs(h, th, b', i, r, hash);
    }
  }

  lemma StackTri(h: Heap, th: Id, b': Body, hash: string -> nat)
    requires Owned(h, hash) && Tri(h.body, h.marked, h.gray, h.grayagain, Excused(h)) && th in h.body
    requires h.body[th].Thread? && b'.Thread?
    ensures var h' := Updated(h, th, b'); Tri(h'.body, h'.marked, h'.gray, h'.grayagain, Excused(h'))
  {
    hide Owned;
    var h' := Updated(h, th, b');
    UvParts(h, hash);
    OpenAll(h, hash);
    MarkedThread(h.body, h.marked, h.gray, h.grayagain, Excused(h), th);
    hide Owned;
    assert NamesAreStrings(h'.body);
    assert Excused(h') == Excused(h);
    hide AllRefs;
    forall i | i in h'.body && Marked(h'.marked, i) && i !in h'.gray && i !in Excused(h')
      ensures Settled(h'.body, h'.marked, i)
    {
      assert i !in h.grayagain && i !in h.uvhead;
      assert Settled(h.body, h.marked, i);
      StackSame(h, th, b', i);
    }
  }

  // A marked thread is on a gray list.
  lemma MarkedThread(body: Bodies, marked: Colors, gray: seq<Id>, grayagain: seq<Id>, x: set<Id>, th: Id)
    requires Tri(body, marked, gray, grayagain, x) && th in body && body[th].Thread?
    ensures Marked(marked, th) ==> th in gray || th in grayagain
  {
    assert Marked(marked, th) ==> marked[th] == Gray;
  }

  lemma OpenAll(h: Heap, hash: string -> nat)
    requires Owned(h, hash)
    ensures forall u :: u in h.body && IsOpen(h.body[u]) ==> u in h.uvhead
  {
  }

  lemma StackKeeps(h: Heap, th: Id, b': Body, hash: string -> nat)
    requires Inv(h, hash) && th in h.body && h.body[th].Thread? && StackWrite(h, h.body[th], b')
    requires OpenBelow(h.body, h.body[th], b'.top)
    ensures Inv(Updated(h, th, b'), hash)
  {
    var h' := Updated(h, th, b');
    StackOwned(h, th, b', hash);
    StackSafe(h, th, b', hash);
    hide Safe, OpenBelow, StackWrite;
    if h.phase == Propagate {
      StackTri(h, th, b', hash);
    } else {
      StackSweeps(h, th, b');
    }
    hide Owned;
  }

  lemma StackSweeps(h: Heap, th: Id, b': Body)
    requires PhaseInv(h) && h.phase != Propagate && th in h.body && h.body[th].Thread? && b'.Thread?
    requires b'.openupval == h.body[th].openupval
    ensures PhaseInv(Updated(h, th, b'))
  {
    var h' := Updated(h, th, b');
    assert forall i :: Current(h', i) <==> Current(h, i);
    assert NeverBlack(h) ==> NeverBlack(h');
    forall n: nat | StringsSwept(h, n) ensures StringsSwept(h', n) {
      forall b, i | 0 <= b < n && b < |h'.strt| && i in h'.strt[b] ensures Current(h', i) {
        assert Current(h, i);
      }
    }
    if h.phase == Sweep {
      forall i | i in h'.swept ensures Current(h', i) {
        assert Current(h, i);
      }
      forall i, u | i in h'.swept && i in h'.body && h'.body[i].Thread? && u in h'.body[i].openupval
        ensures Current(h', u)
      {
        assert u in h.body[i].openupval;
        assert Current(h, u);
      }
    }
  }
}
