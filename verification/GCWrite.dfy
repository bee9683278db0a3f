// What the mutator may do between collector steps: writes, with their barriers, and
// allocation.

module GCWrite {
  import opened GCHeap
  import opened GCInv
  import opened GCSweep
  import opened GCClose
  import opened Options

  // The references of an object that is neither a thread nor an open upvalue.
  function OwnRefs(b: Body): set<Id>
    requires !b.Thread? && !IsOpen(b)
  {
    match b
    case Str(_) => {}
    case Table(meta, slots) => OptionRefs(meta) + SlotsRefs(slots) + KeysRefs(slots)
    case LuaFunction(env, proto, upvals) => {env, proto} + IdsRefs(upvals)
    case CFunction(env, values) => {env} + ValuesRefs(values)
    case Proto(k, protos, names) => ValuesRefs(k) + IdsRefs(protos) + IdsRefs(names)
    case Userdata(meta, env) => OptionRefs(meta) + {env}
    case UpVal(c) => match c case Closed(v) => ValueRefs(v)
  }

  predicate SameKind(b: Body, b': Body) {
    (b.Table? && b'.Table?) || (b.LuaFunction? && b'.LuaFunction?) || (b.CFunction? && b'.CFunction?) ||
    (b.Proto? && b'.Proto?) || (b.Userdata? && b'.Userdata?) ||
    (b.UpVal? && b'.UpVal? && b.cell.Closed? && b'.cell.Closed?)
  }

  function Updated(h: Heap, o: Id, b': Body): Heap {
    h.(body := h.body[o := b'])
  }

  ghost predicate LiveValue(h: Heap, v: Value) {
    forall i :: i in ValueRefs(v) ==> Live(h, i)
  }

  lemma OwnAll(body: Bodies, o: Id)
    requires o in body && !body[o].Thread? && !IsOpen(body[o])
    ensures AllRefs(body, o) == OwnRefs(body[o])
  {
  }

  lemma UpdateOwned(h: Heap, o: Id, b': Body, hash: string -> nat)
    requires Owned(h, hash) && o in h.body && SameKind(h.body[o], b')
    requires b'.Proto? ==> forall n :: n in b'.names ==> n in h.body && h.body[n].Str?
    ensures Owned(Updated(h, o, b'), hash)
  {
    hide RootList, StringTable, OpenLists, NamesAreStrings, NamesBelow;
    var h' := Updated(h, o, b');
    UpdateRoot(h.body, o, b', h.swept, h.tosweep);
    UpdateOpen(h.body, o, b', h.uvhead);
    TableBelow(h, h', hash);
    UpdateNames(h.body, o, b');
    UpdateBelow(h, o, b');
  }

  lemma UpdateBelow(h: Heap, o: Id, b': Body)
    requires NamesBelow(h.body, h.brk) && o in h.body && (forall i :: i in h.body ==> i < h.brk)
    requires b'.Proto? ==> forall n :: n in b'.names ==> n in h.body
    ensures NamesBelow(Updated(h, o, b').body, h.brk)
  {
    var h' := Updated(h, o, b');
    forall i, n | i in h'.body && h'.body[i].Proto? && n in h'.body[i].names ensures n < h.brk {
      if i != o { assert n in h.body[i].names; }
    }
  }

  lemma UpdateRoot(body: Bodies, o: Id, b': Body, swept: seq<Id>, tosweep: seq<Id>)
    requires RootList(body, swept, tosweep) && o in body && SameKind(body[o], b')
    ensures RootList(body[o := b'], swept, tosweep)
  {
  }

  lemma UpdateNames(body: Bodies, o: Id, b': Body)
    requires NamesAreStrings(body) && o in body && SameKind(body[o], b')
    requires b'.Proto? ==> forall n :: n in b'.names && n in body ==> body[n].Str?
    ensures NamesAreStrings(body[o := b'])
  {
  }

  lemma UpdateOpen(body: Bodies, o: Id, b': Body, uvhead: seq<Id>)
    requires OpenLists(body, uvhead) && o in body && SameKind(body[o], b')
    ensures OpenLists(body[o := b'], uvhead)
  {
    var body' := body[o := b'];
    forall th | th in body' && body'[th].Thread? ensures OpenList(body', th) {
      assert th != o && OpenList(body, th);
      var l := body[th].openupval;
      forall u | u in l ensures u in body' && body'[u] == body[u] {
        assert IsOpen(body[u]);
      }
      assert forall a :: 0 <= a < |l| ==> l[a] in l;
    }
    forall u ensures u in uvhead <==> u in body' && IsOpen(body'[u]) {
      assert u in uvhead <==> u in body && IsOpen(body[u]);
    }
    forall u | u in body' && IsOpen(body'[u])
      ensures var th := body'[u].cell.th; th in body' && body'[th].Thread? && u in body'[th].openupval
    {
      assert u != o && IsOpen(body[u]);
    }
  }

  lemma UpdateRefs(h: Heap, o: Id, b': Body, i: Id)
    requires o in h.body && SameKind(h.body[o], b') && i in h.body && i != o
    ensures AllRefs(Updated(h, o, b').body, i) == AllRefs(h.body, i)
  {
    if IsOpen(h.body[i]) {
      var c := h.body[i].cell;
      assert UpvalValue(Updated(h, o, b').body, c) == UpvalValue(h.body, c);
    }
  }

  lemma UpdateSafe(h: Heap, o: Id, b': Body)
    requires Safe(h) && o in h.body && SameKind(h.body[o], b')
    requires Live(h, o) ==> forall r :: r in OwnRefs(b') ==> Live(h, r)
    ensures Safe(Updated(h, o, b'))
  {
    var h' := Updated(h, o, b');
    OwnAll(h'.body, o);
    assert Roots(h') == Roots(h);
    assert forall i :: Live(h', i) <==> Live(h, i);
    hide AllRefs, Roots, Live, OwnRefs;
    forall i, r | i in h'.body && Live(h', i) && r in AllRefs(h'.body, i) ensures Live(h', r) {
      if i != o { UpdateRefs(h, o, b', i); }
    }
  }

  // The phase's invariant, but for the references from o to v.
  ghost predicate PhaseBut(h: Heap, o: Id, v: Value) {
    if h.phase == Propagate then
      NoneDead(h) && Tri(h.body, h.marked, h.gray, h.grayagain, Excused(h) + {o}) &&
      Marked(h.marked, h.main) && (forall i :: i in ValueRefs(h.registry) ==> Marked(h.marked, i)) &&
      (o in h.body && o in h.marked && h.marked[o] == Black ==> forall r :: r in AllRefs(h.body, o) ==>
         r in ValueRefs(v) || Marked(h.marked, r))
    else PhaseInv(h)
  }

  ghost predicate InvBut(h: Heap, o: Id, v: Value, hash: string -> nat) {
    Owned(h, hash) && Safe(h) && PhaseBut(h, o, v) && o in h.body && Live(h, o) && LiveValue(h, v)
  }

  // Writing v into o.
  lemma UpdateLive(h: Heap, o: Id, b': Body, v: Value)
    requires Safe(h) && o in h.body && SameKind(h.body[o], b') && Live(h, o) && LiveValue(h, v)
    requires forall r :: r in OwnRefs(b') ==> r in OwnRefs(h.body[o]) || r in ValueRefs(v)
    ensures forall r :: r in OwnRefs(b') ==> Live(h, r)
  {
    OwnAll(h.body, o);
    forall r | r in OwnRefs(b') ensures Live(h, r) {
      if r in OwnRefs(h.body[o]) { assert r in AllRefs(h.body, o); }
    }
  }

  lemma UpdatePhase(h: Heap, o: Id, b': Body, v: Value, hash: string -> nat)
    requires Inv(h, hash) && o in h.body && SameKind(h.body[o], b') && Live(h, o) && LiveValue(h, v)
    requires b'.Proto? ==> forall n :: n in b'.names ==> n in h.body && h.body[n].Str?
    requires forall r :: r in OwnRefs(b') ==> r in OwnRefs(h.body[o]) || r in ValueRefs(v)
    ensures InvBut(Updated(h, o, b'), o, v, hash)
  {
    hide Owned, Safe, Tri, AllRefs, OwnRefs, ValueRefs;
    var h' := Updated(h, o, b');
    UpdateOwned(h, o, b', hash);
    UpdateLive(h, o, b', v);
    UpdateSafe(h, o, b');
    if h.phase == Propagate {
      PropagateParts(h, hash);
      OpenInHead(h, o, hash);
      UpdateTri(h, o, b', v);
    } else {
      UpdateSweeps(h, o, b', hash);
    }
  }

  lemma UpdateSweeps(h: Heap, o: Id, b': Body, hash: string -> nat)
    requires Inv(h, hash) && o in h.body && SameKind(h.body[o], b') && h.phase != Propagate
    ensures PhaseInv(Updated(h, o, b'))
  {
    var h' := Updated(h, o, b');
    hide Owned, Safe;
    forall i | i in h'.marked ensures Current(h', i) == Current(h, i) {
    }
    assert NeverBlack(h) ==> NeverBlack(h');
    forall n: nat | StringsSwept(h, n) ensures StringsSwept(h', n) {
      forall b, i | 0 <= b < n && b < |h'.strt| && i in h'.strt[b] ensures Current(h', i) {
        assert Current(h, i);
      }
    }
    if h.phase == Sweep {
      forall i | i in h'.swept ensures Current(h', i) {
        assert Current(h, i);
      }
      forall i, u | i in h'.swept && i in h'.body && h'.body[i].Thread? && u in h'.body[i].openupval
        ensures Current(h', u)
      {
        assert i != o && h'.body[i] == h.body[i];
        assert Current(h, u);
      }
    }
  }

  lemma UpdateTri(h: Heap, o: Id, b': Body, v: Value)
    requires Tri(h.body, h.marked, h.gray, h.grayagain, Excused(h)) && o in h.body && SameKind(h.body[o], b')
    requires o !in h.uvhead
    requires b'.Proto? ==> forall n :: n in b'.names ==> n in h.body && h.body[n].Str?
    requires forall r :: r in OwnRefs(b') ==> r in OwnRefs(h.body[o]) || r in ValueRefs(v)
    ensures var h' := Updated(h, o, b');
            Tri(h'.body, h'.marked, h'.gray, h'.grayagain, Excused(h') + {o}) &&
            (o in h'.marked && h'.marked[o] == Black ==> forall r :: r in AllRefs(h'.body, o) ==>
               r in ValueRefs(v) || Marked(h'.marked, r))
  {
    var h' := Updated(h, o, b');
    UpdateNames(h.body, o, b');
    OwnAll(h.body, o);
    OwnAll(h'.body, o);
    NotOnList(h, o);
    assert Lists(h'.body, h'.marked, h'.gray, h'.grayagain);
    assert Shades(h'.body, h'.marked);
    hide AllRefs, OwnRefs;
    forall i | i in h'.body && Marked(h'.marked, i) && i !in h'.gray && i !in Excused(h') + {o}
      ensures Settled(h'.body, h'.marked, i)
    {
      assert i !in Excused(h);
      assert Settled(h.body, h.marked, i);
      UpdateRefs(h, o, b', i);
    }
    if o in h'.marked && h'.marked[o] == Black {
      BlackSettled(h, o);
    }
  }

  // A black object is on no list, and is not excused.
  lemma NotOnList(h: Heap, o: Id)
    requires Tri(h.body, h.marked, h.gray, h.grayagain, Excused(h)) && o in h.body && o in h.marked
    ensures h.marked[o] == Black ==> o !in h.gray && o !in h.grayagain
  {
  }

  lemma BlackSettled(h: Heap, o: Id)
    requires Tri(h.body, h.marked, h.gray, h.grayagain, Excused(h)) && o in h.body && o in h.marked
    requires h.marked[o] == Black
    requires !IsOpen(h.body[o])
    ensures o !in h.uvhead ==> Settled(h.body, h.marked, o)
  {
    NotOnList(h, o);
  }

  // ----- barriers -----

  // No barrier is needed when o is not black, when v is not white, or when nothing is marked.
  lemma PlainKeeps(h: Heap, o: Id, v: Value, hash: string -> nat)
    requires InvBut(h, o, v, hash)
    requires h.phase != Propagate || h.marked[o] != Black || forall i :: i in ValueRefs(v) ==> Marked(h.marked, i)
    ensures Inv(h, hash)
  {
    if h.phase == Propagate {
      if h.marked[o] == Gray {
        GrayExcused(h, o, hash);
      } else {
        hide AllRefs;
        CoverDrop(h.body, h.marked, h.gray, h.grayagain, Excused(h), o);
      }
    }
  }

  lemma GrayExcused(h: Heap, o: Id, hash: string -> nat)
    requires Owned(h, hash) && Tri(h.body, h.marked, h.gray, h.grayagain, Excused(h) + {o}) && o in h.body
    requires h.marked[o] == Gray
    ensures Tri(h.body, h.marked, h.gray, h.grayagain, Excused(h))
  {
    OpenInHead(h, o, hash);
    hide Owned;
    if h.body[o].Str? {
      CoverDrop(h.body, h.marked, h.gray, h.grayagain, Excused(h), o);
    } else {
      assert o in h.gray || o in Excused(h);
      forall i | i in h.body && Marked(h.marked, i) && i !in h.gray && i !in Excused(h)
        ensures Settled(h.body, h.marked, i)
      {
        assert i != o && i !in Excused(h) + {o};
      }
    }
  }

  // luaC_barrierback: a black table is put back among the gray ones.
  function BarrierBack(h: Heap, t: Id): Heap {
    h.(marked := h.marked[t := Gray], grayagain := [t] + h.grayagain)
  }

  lemma BackKeeps(h: Heap, t: Id, v: Value, hash: string -> nat)
    requires InvBut(h, t, v, hash) && h.body[t].Table? && t in h.marked && h.marked[t] == Black
    ensures Inv(BarrierBack(h, t), hash)
  {
    hide Safe, Owned, Tri;
    var h' := BarrierBack(h, t);
    assert forall i :: Live(h', i) <==> Live(h, i);
    BackOwned(h, h', hash);
    SameLife(h, h');
    if h.phase == Propagate {
      BackTri(h, t);
    } else {
      Recolored(h, h', t);
    }
  }

  lemma BackOwned(h: Heap, h': Heap, hash: string -> nat)
    requires Owned(h, hash) && h' == h.(marked := h'.marked, gray := h'.gray, grayagain := h'.grayagain)
    requires h'.marked.Keys == h.marked.Keys
    ensures Owned(h', hash) && Roots(h') == Roots(h)
  {
    hide RootList, StringTable, OpenLists, NamesAreStrings;
  }

  lemma BackTri(h: Heap, t: Id)
    requires Tri(h.body, h.marked, h.gray, h.grayagain, Excused(h) + {t}) && t in h.body && h.body[t].Table?
    requires h.marked[t] == Black
    ensures var h' := BarrierBack(h, t); Tri(h'.body, h'.marked, h'.gray, h'.grayagain, Excused(h'))
  {
    var h' := BarrierBack(h, t);
    assert t !in h.gray && t !in h.grayagain;
    Prepended(h.grayagain, t);
    assert forall i :: i in h'.grayagain <==> i == t || i in h.grayagain;
    forall i | i in h'.body && Marked(h'.marked, i) && i !in h'.gray && i !in Excused(h')
      ensures Settled(h'.body, h'.marked, i)
    {
      assert t in Excused(h') && i !in Excused(h) + {t};
      assert Settled(h.body, h.marked, i);
    }
  }

  // Outside the propagate phase the colour of an object that is not dead may change to
  // gray or to the current white.
  lemma Recolored(h: Heap, h': Heap, o: Id)
    requires PhaseInv(h) && h.phase != Propagate && o in h.marked && h.marked[o] == Black
    requires h' == h.(marked := h'.marked, grayagain := h'.grayagain)
    requires (h'.marked == h.marked[o := Gray] || h'.marked == h.marked[o := White(h.white)])
    ensures PhaseInv(h')
  {
    assert !Current(h, o);
    forall i | Current(h, i) ensures Current(h', i) {
      assert i != o;
    }
    forall n: nat | StringsSwept(h, n) ensures StringsSwept(h', n) {
      forall b, i | 0 <= b < n && b < |h'.strt| && i in h'.strt[b] ensures Current(h', i) {
        assert Current(h, i);
      }
    }
    if h.phase == Sweep {
      forall i | i in h'.swept ensures Current(h', i) {
        assert Current(h, i);
      }
      forall i, u | i in h'.swept && i in h'.body && h'.body[i].Thread? && u in h'.body[i].openupval
        ensures Current(h', u)
      {
        assert Current(h, u);
      }
    }
    assert NeverBlack(h) ==> NeverBlack(h');
  }

  // luaC_barrierf outside the propagate phase: just avoid other barriers.
  lemma WhiteKeeps(h: Heap, o: Id, v: Value, hash: string -> nat)
    requires InvBut(h, o, v, hash) && h.phase != Propagate && o in h.marked && h.marked[o] == Black
    ensures Inv(h.(marked := h.marked[o := White(h.white)]), hash)
  {
    var h' := h.(marked := h.marked[o := White(h.white)]);
    assert forall i :: Live(h', i) <==> Live(h, i);
    BackOwned(h, h', hash);
    SameLife(h, h');
    hide Safe, Owned, RootList;
    Recolored(h, h', o);
  }

  // luaC_barrierf while propagating: the value has been marked.
  lemma ForwardKeeps(h: Heap, h': Heap, o: Id, v: Value, hash: string -> nat)
    requires InvBut(h, o, v, hash) && h.phase == Propagate && Grew(h.marked, h'.marked, h.body.Keys)
    requires o in h.marked && h.marked[o] == Black
    requires h' == h.(marked := h'.marked, gray := h'.gray)
    requires Tri(h'.body, h'.marked, h'.gray, h'.grayagain, Excused(h) + {o})
    requires forall i :: i in ValueRefs(v) ==> Marked(h'.marked, i)
    ensures Inv(h', hash)
  {
    GrewMarks(h.marked, h'.marked, h.body.Keys);
    NoneDeadGrew(h, h'.marked, h.body.Keys);
    GrewAdvanced(h.marked, h'.marked, h.body.Keys);
    assert Excused(h') == Excused(h);
    assert forall i :: Live(h', i) <==> Live(h, i) by {
      forall i ensures Live(h', i) <==> Live(h, i) {
        if i in h.marked { assert h.marked[i] != White(!h.white) && h'.marked[i] != White(!h.white); }
      }
    }
    BackOwned(h, h', hash);
    SameLife(h, h');
    forall r | r in AllRefs(h'.body, o) ensures Marked(h'.marked, r) {
      assert r in ValueRefs(v) || Marked(h.marked, r);
    }
    hide Owned, Safe, Tri, AllRefs;
    NewlySettled(h, h', o, v, hash);
  }

  lemma NewlySettled(h: Heap, h': Heap, o: Id, v: Value, hash: string -> nat)
    requires Owned(h', hash) && Safe(h') && NoneDead(h') && o in h'.body && h'.phase == Propagate && Live(h', o)
    requires Tri(h'.body, h'.marked, h'.gray, h'.grayagain, Excused(h') + {o})
    requires Marked(h'.marked, h'.main) && forall i :: i in ValueRefs(h'.registry) ==> Marked(h'.marked, i)
    requires o in h'.marked && (h'.marked[o] == Black ==> forall r :: r in AllRefs(h'.body, o) ==> Marked(h'.marked, r))
    ensures Inv(h', hash)
  {
    PlainKeeps(h', o, Nil, hash) by { assert InvBut(h', o, Nil, hash); }
  }

  // ----- the references of an updated object -----

  lemma SetSlotRefs(meta: Option<Id>, slots: seq<Slot>, i: nat, v: Value)
    requires i < |slots|
    ensures forall r :: r in OwnRefs(Table(meta, slots[i := Slot(slots[i].key, v)])) ==>
              r in OwnRefs(Table(meta, slots)) || r in ValueRefs(v)
  {
    var s' := slots[i := Slot(slots[i].key, v)];
    forall r | r in SlotsRefs(s') ensures r in SlotsRefs(slots) + KeysRefs(slots) || r in ValueRefs(v) {
      var k :| 0 <= k < |s'| && r in SlotRefs(s'[k]);
      if k != i {
        assert r in SlotRefs(slots[k]);
      } else if r !in ValueRefs(v) {
        assert slots[i].key.Ref? && slots[i].key.id == r;
      }
    }
    forall r | r in KeysRefs(s') ensures r in KeysRefs(slots) {
      var k :| 0 <= k < |s'| && s'[k].key.Ref? && s'[k].key.id == r;
      assert slots[k].key == s'[k].key;
    }
  }

  lemma NewSlotRefs(meta: Option<Id>, slots: seq<Slot>, k: Value)
    ensures forall r :: r in OwnRefs(Table(meta, slots + [Slot(k, Nil)])) ==>
              r in OwnRefs(Table(meta, slots)) || r in ValueRefs(k)
  {
    var s' := slots + [Slot(k, Nil)];
    forall r | r in SlotsRefs(s') ensures r in SlotsRefs(slots) {
      var j :| 0 <= j < |s'| && r in SlotRefs(s'[j]);
      assert j < |slots| && r in SlotRefs(slots[j]);
    }
    forall r | r in KeysRefs(s') ensures r in KeysRefs(slots) || r in ValueRefs(k) {
      var j :| 0 <= j < |s'| && s'[j].key.Ref? && s'[j].key.id == r;
      if j < |slots| { assert slots[j].key == s'[j].key; }
    }
  }

  lemma SetValueRefs(vs: seq<Value>, i: nat, v: Value)
    requires i < |vs|
    ensures forall r :: r in ValuesRefs(vs[i := v]) ==> r in ValuesRefs(vs) || r in ValueRefs(v)
  {
    forall r | r in ValuesRefs(vs[i := v]) ensures r in ValuesRefs(vs) || r in ValueRefs(v) {
      var k :| 0 <= k < |vs| && vs[i := v][k].Ref? && vs[i := v][k].id == r;
      if k != i { assert vs[k].Ref? && vs[k].id == r; }
    }
  }

  lemma MoreValueRefs(vs: seq<Value>, v: Value)
    ensures forall r :: r in ValuesRefs(vs + [v]) ==> r in ValuesRefs(vs) || r in ValueRefs(v)
  {
    forall r | r in ValuesRefs(vs + [v]) ensures r in ValuesRefs(vs) || r in ValueRefs(v) {
      var k :| 0 <= k < |vs + [v]| && (vs + [v])[k].Ref? && (vs + [v])[k].id == r;
      if k < |vs| { assert vs[k].Ref? && vs[k].id == r; }
    }
  }

  lemma MoreIdRefs(ids: seq<Id>, i: Id)
    ensures forall r :: r in IdsRefs(ids + [i]) ==> r in IdsRefs(ids) || r == i
  {
    forall r | r in IdsRefs(ids + [i]) ensures r in IdsRefs(ids) || r == i {
      var k :| 0 <= k < |ids + [i]| && (ids + [i])[k] == r;
      if k < |ids| { assert ids[k] == r; }
    }
  }

  lemma NamesOf(h: Heap, p: Id, hash: string -> nat)
    requires Inv(h, hash) && p in h.body && h.body[p].Proto? && Live(h, p)
    ensures forall n :: n in h.body[p].names ==> n in h.body && h.body[n].Str?
  {
    forall n | n in h.body[p].names ensures n in h.body && h.body[n].Str? {
      assert n in IdsRefs(h.body[p].names);
      assert n in AllRefs(h.body, p);
      assert Live(h, n);
    }
  }
}
