// Closing upvalues: a value moves out of a stack slot into the upvalue itself.

module GCClose {
  import opened GCHeap
  import opened GCInv
  import opened GCSweep

  // Links an object at the front of rootgc.
  function Linked(h: Heap, u: Id): Heap {
    if h.swept == [] then h.(tosweep := [u] + h.tosweep) else h.(swept := [u] + h.swept)
  }

  // The thread's list without its first upvalue, and that upvalue off the list of all.
  function Unlinked(h: Heap, th: Id): Heap
    requires th in h.body && h.body[th].Thread? && h.body[th].openupval != []
  {
    h.(body := h.body[th := h.body[th].(openupval := h.body[th].openupval[1..])],
       uvhead := Keep(h.uvhead, {h.body[th].openupval[0]}))
  }

  // luaF_close, for a first upvalue that is not dead.
  function CloseOne(h: Heap, th: Id): Heap
    requires th in h.body && h.body[th].Thread? && h.body[th].openupval != [] && h.body[th].openupval[0] in h.body
    requires h.body[h.body[th].openupval[0]].UpVal?
  {
    var u, h1 := h.body[th].openupval[0], Unlinked(h, th);
    Linked(h1.(body := h1.body[u := UpVal(Closed(UpvalValue(h.body, h.body[u].cell)))]), u)
  }

  // luaF_close, for one that is dead.
  function DropOne(h: Heap, th: Id): Heap
    requires th in h.body && h.body[th].Thread? && h.body[th].openupval != []
  {
    var u, h1 := h.body[th].openupval[0], Unlinked(h, th);
    h1.(body := h1.body - {u}, marked := h1.marked - {u})
  }

  lemma FirstOpen(h: Heap, th: Id, hash: string -> nat)
    requires Owned(h, hash) && th in h.body && h.body[th].Thread? && h.body[th].openupval != []
    ensures var l := h.body[th].openupval; var u := l[0];
            u in l && u in h.body && IsOpen(h.body[u]) && u != th && h.body[u].cell.th == th && u in h.uvhead &&
            u !in h.fixed &&
            u != h.main && u != h.running && u < h.brk && h.body.Keys == h.marked.Keys &&
            h.body[u].cell.level < h.body[th].top <= |h.body[th].stack| && u !in h.swept && u !in h.tosweep &&
            u !in l[1..]
  {
    ThreadList(h, th, hash);
    SweptIds(h, hash);
    var l := h.body[th].openupval;
    assert l[0] in l;
    OpenInHead(h, l[0], hash);
    LevelsOf(h.body, th);
    forall k | 0 <= k < |l[1..]| ensures l[1..][k] != l[0] {
      assert l[1..][k] == l[k + 1] && LevelOf(h.body, l[0]) > LevelOf(h.body, l[k + 1]);
    }
  }

  lemma OpenInHead(h: Heap, u: Id, hash: string -> nat)
    requires Owned(h, hash)
    ensures u in h.uvhead <==> u in h.body && IsOpen(h.body[u])
  {
  }

  lemma CloseShape(h: Heap, th: Id, hash: string -> nat)
    requires Owned(h, hash) && th in h.body && h.body[th].Thread? && h.body[th].openupval != []
    requires h.body[th].openupval[0] in h.body && h.body[h.body[th].openupval[0]].UpVal?
    ensures var h', u := CloseOne(h, th), h.body[th].openupval[0];
            && h' == h.(body := h'.body, uvhead := Keep(h.uvhead, {u}), swept := h'.swept, tosweep := h'.tosweep)
            && (h'.swept, h'.tosweep) ==
               (if h.swept == [] then (h.swept, [u] + h.tosweep) else ([u] + h.swept, h.tosweep))
            && h'.body.Keys == h.body.Keys && h'.body[u] == UpVal(Closed(UpvalValue(h.body, h.body[u].cell)))
            && h'.body[th] == h.body[th].(openupval := h.body[th].openupval[1..])
            && forall i {:trigger h'.body[i]} {:trigger h.body[i]} :: i in h.body && i != u && i != th ==>
                 h'.body[i] == h.body[i]
  {
    hide Owned, Keep, UpvalValue;
    FirstOpen(h, th, hash);
  }

  lemma DropShape(h: Heap, th: Id, hash: string -> nat)
    requires Owned(h, hash) && th in h.body && h.body[th].Thread? && h.body[th].openupval != []
    ensures var h', u := DropOne(h, th), h.body[th].openupval[0];
            && h' == h.(body := h'.body, marked := h.marked - {u}, uvhead := Keep(h.uvhead, {u}))
            && h'.body.Keys == h.body.Keys - {u} && th in h'.body
            && h'.body[th] == h.body[th].(openupval := h.body[th].openupval[1..])
            && forall i {:trigger h'.body[i]} {:trigger h.body[i]} :: i in h.body && i != u && i != th ==>
                 i in h'.body && h'.body[i] == h.body[i]
  {
    hide Owned, Keep, UpvalValue;
    FirstOpen(h, th, hash);
  }

  lemma LinkedRoot(body: Bodies, body': Bodies, swept: seq<Id>, tosweep: seq<Id>, u: Id)
    requires RootList(body, swept, tosweep) && u !in swept && u !in tosweep && u in body' && OnRootList(body'[u])
    requires forall i {:trigger body'[i]} :: i in body' && i != u ==>
               i in body && OnRootList(body'[i]) == OnRootList(body[i])
    requires forall i {:trigger body[i]} :: i in body ==> i in body'
    ensures if swept == [] then RootList(body', swept, [u] + tosweep) else RootList(body', [u] + swept, tosweep)
  {
    Prepended(swept, u);
    Prepended(tosweep, u);
    assert forall i :: i in [u] + swept <==> i == u || i in swept;
    assert forall i :: i in [u] + tosweep <==> i == u || i in tosweep;
    forall i | i in swept || i in tosweep ensures i in body' && OnRootList(body'[i]) {
      assert i in body && OnRootList(body[i]);
    }
  }

  lemma Prepended(l: seq<Id>, u: Id)
    requires Distinct(l) && u !in l
    ensures Distinct([u] + l)
  {
    var l' := [u] + l;
    forall a, b | 0 <= a < b < |l'| ensures l'[a] != l'[b] {
      if a == 0 { assert l[b - 1] in l; } else { assert l[a - 1] != l[b - 1]; }
    }
  }

  // The open lists after u has left the list of th and is open no more.
  lemma OpenWithout(b: Bodies, b': Bodies, uvhead: seq<Id>, th: Id)
    requires OpenLists(b, uvhead) && th in b && b[th].Thread? && b[th].openupval != []
    requires th in b' && b'[th] == b[th].(openupval := b[th].openupval[1..])
    requires var u := b[th].openupval[0];
             u != th && u in b && b[u].UpVal? && (u in b' ==> !IsOpen(b'[u]) && !b'[u].Thread?) &&
             u !in b[th].openupval[1..] &&
             forall i :: i != u && i != th ==> (i in b' <==> i in b) && (i in b ==> b'[i] == b[i])
    ensures OpenLists(b', Keep(uvhead, {b[th].openupval[0]}))
  {
    var u, rest := b[th].openupval[0], b[th].openupval[1..];
    KeepDistinct(uvhead, {u});
    assert b[th].openupval == [u] + rest;
    assert OpenList(b, th);
    forall t | t in b' && b'[t].Thread? ensures OpenList(b', t) {
      assert t in b && b[t].Thread? && OpenList(b, t);
      if t == th { RestList(b, b', th); } else { SameList(b, b', u, th, t); }
    }
    forall v | v in b' && IsOpen(b'[v])
      ensures var t := b'[v].cell.th; t in b' && b'[t].Thread? && v in b'[t].openupval
    {
      assert v != u && v != th && b'[v] == b[v];
      var t := b[v].cell.th;
      assert t in b && b[t].Thread? && v in b[t].openupval;
      assert t != u;
    }
    forall v ensures v in Keep(uvhead, {u}) <==> v in b' && IsOpen(b'[v]) {
      assert v in uvhead <==> v in b && IsOpen(b[v]);
    }
  }

  lemma RestList(b: Bodies, b': Bodies, th: Id)
    requires th in b && b[th].Thread? && OpenList(b, th) && b[th].openupval != []
    requires th in b' && b'[th] == b[th].(openupval := b[th].openupval[1..])
    requires forall i :: i in b[th].openupval[1..] && i in b ==> i in b' && b'[i] == b[i]
    ensures OpenList(b', th)
  {
    var l, rest := b[th].openupval, b[th].openupval[1..];
    forall v | v in rest ensures v in l {
    }
    forall a | 0 <= a < |rest| ensures rest[a] == l[a + 1] && rest[a] in rest {
    }
    assert forall a :: 0 <= a < |l| ==> l[a] in l;
  }

  lemma SameList(b: Bodies, b': Bodies, u: Id, th: Id, t: Id)
    requires t in b && b[t].Thread? && OpenList(b, t) && t != th && t != u && t in b' && b'[t] == b[t] && th in b
    requires b[th].Thread?
    requires u in b && IsOpen(b[u]) && b[u].cell.th == th
    requires forall i :: i != u && i != th ==> (i in b' <==> i in b) && (i in b ==> b'[i] == b[i])
    ensures OpenList(b', t)
  {
    var l := b[t].openupval;
    forall v | v in l ensures v in b' && b'[v] == b[v] {
      assert IsOpen(b[v]) && b[v].cell.th == t;
    }
    assert forall a :: 0 <= a < |l| ==> l[a] in l;
  }

  lemma CloseOwned(h: Heap, th: Id, hash: string -> nat)
    requires Owned(h, hash) && th in h.body && h.body[th].Thread? && h.body[th].openupval != []
    requires h.body[th].openupval[0] in h.body && h.body[h.body[th].openupval[0]].UpVal?
    ensures Owned(CloseOne(h, th), hash)
  {
    hide CloseOne, RootList, StringTable, OpenLists, NamesAreStrings;
    var h', u := CloseOne(h, th), h.body[th].openupval[0];
    FirstOpen(h, th, hash);
    CloseShape(h, th, hash);
    OpenWithout(h.body, h'.body, h.uvhead, th);
    LinkedRoot(h.body, h'.body, h.swept, h.tosweep, u);
    TableBelow(h, h', hash);
    ClosedNames(h.body, h'.body);
  }

  lemma ClosedNames(body: Bodies, body': Bodies)
    requires NamesAreStrings(body)
    requires forall i {:trigger body'[i]} :: i in body' ==>
               i in body && (body'[i] == body[i] || (!body'[i].Proto? && body[i].Str? == body'[i].Str?))
    ensures NamesAreStrings(body')
  {
    forall i, n | i in body' && body'[i].Proto? && n in body'[i].names && n in body' ensures body'[n].Str? {
      assert body'[i] == body[i];
      assert body[n].Str?;
    }
  }

  // Every object keeps the references it has.
  lemma CloseRefs(h: Heap, th: Id, hash: string -> nat, i: Id)
    requires Owned(h, hash) && th in h.body && h.body[th].Thread? && h.body[th].openupval != [] && i in h.body
    requires h.body[th].openupval[0] in h.body && h.body[h.body[th].openupval[0]].UpVal?
    ensures var h' := CloseOne(h, th);
            i in h'.body && AllRefs(h'.body, i) == AllRefs(h.body, i) && Intact(h.body, h'.body, i)
  {
    hide CloseOne, Owned;
    var h', u := CloseOne(h, th), h.body[th].openupval[0];
    FirstOpen(h, th, hash);
    CloseShape(h, th, hash);
    if i != u && IsOpen(h.body[i]) {
      OtherValue(h.body, h'.body, th, u, h.body[i].cell);
    }
  }

  lemma OtherValue(b: Bodies, b': Bodies, th: Id, u: Id, c: Cell)
    requires c.Open? && th in b && b[th].Thread? && th in b' && b[th].openupval != []
    requires b'[th] == b[th].(openupval := b[th].openupval[1..]) && u in b && b[u].UpVal? && (u in b' ==> b'[u].UpVal?)
    requires forall i :: i != u && i != th ==> (i in b' <==> i in b) && (i in b ==> b'[i] == b[i])
    ensures UpvalValue(b', c) == UpvalValue(b, c)
  {
    if c.th != th && c.th != u && c.th in b {
      assert b'[c.th] == b[c.th];
    }
  }

  lemma CloseSafe(h: Heap, th: Id, hash: string -> nat)
    requires Owned(h, hash) && Safe(h) && th in h.body && h.body[th].Thread? && h.body[th].openupval != []
    requires h.body[th].openupval[0] in h.body && h.body[h.body[th].openupval[0]].UpVal?
    ensures Safe(CloseOne(h, th)) && KeepsLive(h, CloseOne(h, th))
  {
    var h' := CloseOne(h, th);
    FirstOpen(h, th, hash);
    assert h'.marked == h.marked && h'.body.Keys == h.body.Keys && h'.white == h.white;
    assert Roots(h') == Roots(h);
    assert forall i :: Live(h', i) <==> Live(h, i);
    hide CloseOne, AllRefs, Roots, Intact, Owned, Live;
    forall i | i in h.body && Live(h, i) ensures Intact(h.body, h'.body, i) {
      CloseRefs(h, th, hash, i);
    }
    forall i, r | i in h'.body && Live(h', i) && r in AllRefs(h'.body, i) ensures Live(h', r) {
      CloseRefs(h, th, hash, i);
      assert r in AllRefs(h.body, i);
    }
    ClosedRoots(h, h', th);
  }

  lemma ClosedRoots(h: Heap, h': Heap, th: Id)
    requires th in h.body && h.body[th].Thread? && h.body[th].openupval != [] && h.body[th].openupval[0] in h.body
    requires h.body[h.body[th].openupval[0]].UpVal? && h' == CloseOne(h, th)
    ensures h'.main == h.main && h'.running == h.running && h'.registry == h.registry && h'.mt == h.mt
  {
  }

  lemma DropOwned(h: Heap, th: Id, hash: string -> nat)
    requires Owned(h, hash) && th in h.body && h.body[th].Thread? && h.body[th].openupval != []
    ensures Owned(DropOne(h, th), hash)
  {
    hide DropOne, RootList, StringTable, OpenLists, NamesAreStrings;
    var h', u := DropOne(h, th), h.body[th].openupval[0];
    FirstOpen(h, th, hash);
    DropShape(h, th, hash);
    OpenWithout(h.body, h'.body, h.uvhead, th);
    FewerRoot(h.body, h'.body, h.swept, h.tosweep);
    TableBelow(h, h', hash);
    ClosedNames(h.body, h'.body);
    assert h'.body.Keys == h'.marked.Keys;
  }

  lemma DropSafe(h: Heap, th: Id, hash: string -> nat)
    requires Owned(h, hash) && Safe(h) && th in h.body && h.body[th].Thread? && h.body[th].openupval != []
    requires Dead(h, h.body[th].openupval[0])
    ensures Safe(DropOne(h, th)) && KeepsLive(h, DropOne(h, th))
  {
    hide Owned;
    var h', u := DropOne(h, th), h.body[th].openupval[0];
    FirstOpen(h, th, hash);
    OpenThreads(h, hash);
    hide Owned, Safe;
    assert SweptTo(h, h', {u});
    assert SweptIntact(h, h') by {
      forall i | i in h'.body && i in h.body && IsOpen(h.body[i]) ensures h.body[i].cell.th in h'.body {
      }
    }
    SweptSafe(h, h', {u}, hash);
  }

  // ----- closing while sweeping -----

  lemma CloseColors(h: Heap, th: Id, hash: string -> nat)
    requires Owned(h, hash) && th in h.body && h.body[th].Thread? && h.body[th].openupval != []
    requires h.body[th].openupval[0] in h.body && h.body[h.body[th].openupval[0]].UpVal?
    requires SweepColors(h) && Current(h, h.body[th].openupval[0])
    ensures SweepColors(CloseOne(h, th))
  {
    hide CloseOne, Owned;
    var h', u := CloseOne(h, th), h.body[th].openupval[0];
    FirstOpen(h, th, hash);
    CloseShape(h, th, hash);
    assert forall i :: i in h'.swept ==> i == u || i in h.swept;
    forall i, v | i in h'.swept && i in h'.body && h'.body[i].Thread? && v in h'.body[i].openupval
      ensures Current(h', v)
    {
      assert i != u;
      if i == th { assert v in h.body[th].openupval; } else { assert h'.body[i] == h.body[i]; }
      assert Current(h, v);
    }
    forall i | i in h'.swept ensures Current(h', i) {
      assert i == u || Current(h, i);
    }
    forall b, i | 0 <= b < |h'.strt| && i in h'.strt[b] ensures Current(h', i) {
      assert Current(h, i);
    }
    forall i | i in h'.body && i in h'.marked && h'.marked[i] == Black
      ensures !h'.body[i].Str? && !h'.body[i].Thread? && !IsOpen(h'.body[i])
    {
      if i != u && i != th { assert h'.body[i] == h.body[i]; }
    }
  }

  lemma CloseFades(h: Heap, th: Id, hash: string -> nat)
    requires Owned(h, hash) && th in h.body && h.body[th].Thread? && h.body[th].openupval != []
    requires h.body[th].openupval[0] in h.body && h.body[h.body[th].openupval[0]].UpVal?
    ensures Fades(h, CloseOne(h, th))
  {
    hide CloseOne, Owned;
    FirstOpen(h, th, hash);
    CloseShape(h, th, hash);
  }

  // An object out of rootgc but not yet freed, as if it were still at the end of the list.
  function Aside(h: Heap, o: Id): Heap {
    h.(tosweep := h.tosweep + [o])
  }

  lemma AsideOwned(h: Heap, o: Id, hash: string -> nat)
    requires Owned(h, hash) && Safe(h) && SweepColors(h) && h.tosweep != [] && o == h.tosweep[0]
    ensures var g := Aside(h.(tosweep := h.tosweep[1..]), o);
            Owned(g, hash) && Safe(g) && SweepColors(g) && KeepsLive(h, g) && Fades(h, g) && o !in h.tosweep[1..]
  {
    var g := Aside(h.(tosweep := h.tosweep[1..]), o);
    AsideRoot(h.body, h.swept, h.tosweep);
    hide RootList, StringTable, OpenLists, NamesAreStrings;
    SameLife(h, g);
    assert Owned(g, hash);
    AsideSweep(h, g);
  }

  lemma AsideSweep(h: Heap, g: Heap)
    requires g == h.(tosweep := g.tosweep)
    ensures KeepsLive(h, g) && Fades(h, g) && (SweepColors(h) ==> SweepColors(g))
  {
    assert g.body == h.body && g.marked == h.marked && g.strt == h.strt && g.swept == h.swept;
    if SweepColors(h) {
      forall b, i | 0 <= b < |g.strt| && i in g.strt[b] ensures Current(g, i) {
        assert Current(h, i);
      }
      forall i | i in g.swept ensures Current(g, i) {
        assert Current(h, i);
      }
      forall i, u | i in g.swept && i in g.body && g.body[i].Thread? && u in g.body[i].openupval ensures Current(g, u) {
        assert Current(h, u);
      }
    }
  }

  lemma AsideRoot(body: Bodies, swept: seq<Id>, tosweep: seq<Id>)
    requires RootList(body, swept, tosweep) && tosweep != []
    ensures RootList(body, swept, tosweep[1..] + [tosweep[0]]) && tosweep[0] !in tosweep[1..]
  {
    var o, rest := tosweep[0], tosweep[1..];
    TailDistinct(tosweep);
    var l := rest + [o];
    forall a, b | 0 <= a < b < |l| ensures l[a] != l[b] {
      assert l[a] in rest;
      if b < |rest| { assert rest[a] != rest[b]; }
    }
    assert tosweep == [o] + rest;
    assert forall i :: i in l <==> i in rest || i == o;
    assert forall i :: i in tosweep <==> i in rest || i == o;
  }

  lemma AsideClose(h: Heap, o: Id, th: Id)
    requires th in h.body && h.body[th].Thread? && h.body[th].openupval != [] && h.body[th].openupval[0] in h.body
    requires h.body[h.body[th].openupval[0]].UpVal?
    ensures CloseOne(Aside(h, o), th) == Aside(CloseOne(h, th), o)
  {
    var u := h.body[th].openupval[0];
    assert [u] + (h.tosweep + [o]) == ([u] + h.tosweep) + [o];
  }

  lemma AsideFreed(h: Heap, o: Id)
    requires o !in h.tosweep
    ensures Freed(Aside(h, o), o) == h.(body := h.body - {o}, marked := h.marked - {o})
  {
    KeepOne(h.tosweep, {o}, o);
    KeepAll(h.tosweep, {o});
  }
}
