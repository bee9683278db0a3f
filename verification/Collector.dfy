// The incremental collector and the mutator operations that run between its steps.

module Collectors {
  import opened GCHeap
  import opened GCInv
  import opened GCSweep
  import opened GCClose
  import opened GCWrite
  import opened GCStack
  import opened GCAlloc
  import opened GCRevive
  import opened GCUpval
  import opened Options

  const SWEEPMAX: nat := 40
  const SWEEPCOST: nat := 10

  class Collector {
    // the objects
    var body: Bodies
    var marked: Colors
    // the collector's own state
    var white: bool             // which of the two whites is current
    var gcstate: Phase
    var gray: seq<Id>
    var grayagain: seq<Id>
    // rootgc, split where sweepgc points
    var swept: seq<Id>
    var tosweep: seq<Id>
    // the string table
    const hash: string -> nat
    var strt: seq<seq<Id>>
    var sweepstr: nat
    var uvhead: seq<Id>         // all open upvalues
    const sizeOf: Body -> nat   // in bytes
    // where the program starts from
    const mainthread: Id
    var running: Id
    const registry: Value
    var mt: seq<Option<Id>>     // metatables of the basic types
    var fixed: set<Id>          // strings never collected
    var brk: Id                 // no address from here on has been used

    function H(): Heap
      reads this
    {
      Heap(body, marked, white, gcstate, gray, grayagain, swept, tosweep, strt, sweepstr, uvhead,
           mainthread, running, registry, mt, fixed, brk)
    }

    ghost predicate Valid()
      reads this
    {
      Inv(H(), hash)
    }

    // lua_newstate: the main thread, its table of globals and the registry
    constructor (hash: string -> nat, size: nat, sizeOf: Body -> nat)
      requires size > 0
      ensures Valid() && gcstate == Pause && this.hash == hash && this.sizeOf == sizeOf && |strt| == size
      ensures body == map[0 := Thread(Ref(1), [], 0, []), 1 := Table(None, []), 2 := Table(None, [])]
      ensures mainthread == 0 && running == 0 && registry == Ref(2) && fixed == {}
    {
      this.hash, this.sizeOf := hash, sizeOf;
      body := map[0 := Thread(Ref(1), [], 0, []), 1 := Table(None, []), 2 := Table(None, [])];
      marked := map[0 := White(false), 1 := White(false), 2 := White(false)];
      white, gcstate, gray, grayagain := false, Pause, [], [];
      swept, tosweep, strt, sweepstr, uvhead := [], [2, 1, 0], seq(size, i => []), 0, [];
      mainthread, running, registry, mt, fixed, brk := 0, 0, Ref(2), [], {}, 3;
      new;
      NewState(H(), hash);
    }

    // reallymarkobject
    method Mark(o: Id, ghost x: set<Id>, ghost r: set<Id>)
      requires Tri(body, marked, gray, grayagain, x) && ClosedSet(body, r) && o in r && marked[o].White?
      modifies this`marked, this`gray
      ensures Tri(body, marked, gray, grayagain, x) && Grew(old(marked), marked, r) && Marked(marked, o)
      decreases Whites(marked), 1
    {
      hide Tri, ClosedSet, Grew, Refs, Whites;
      Members(body, marked, gray, grayagain, x, r, o);
      ghost var m0 := marked;
      if Listable(body[o]) {
        TurnGray(body, marked, gray, grayagain, x, o);
        FewerWhites(marked, o, Gray, r);
        marked, gray := marked[o := Gray], [o] + gray;
      } else if body[o].Str? {
        StringMarked(body, marked, gray, grayagain, x, o);
        FewerWhites(marked, o, Gray, r);
        marked := marked[o := Gray];
      } else if body[o].Userdata? {
        TurnMarked(body, marked, gray, grayagain, x, o, Black);
        FewerWhites(marked, o, Black, r);
        marked := marked[o := Black];
        ghost var m1 := marked;
        MarkChildren(o, x, r);
        GrewTrans(m0, m1, marked, r);
      } else {
        var c := if IsOpen(body[o]) then Gray else Black;
        TurnMarked(body, marked, gray, grayagain, x, o, c);
        FewerWhites(marked, o, c, r);
        marked := marked[o := c];
        ghost var m1 := marked;
        MarkUpvalue(o, x, r);
        GrewTrans(m0, m1, marked, r);
      }
    }

    method MarkChildren(o: Id, ghost x: set<Id>, ghost r: set<Id>)
      requires Tri(body, marked, gray, grayagain, x + {o}) && ClosedSet(body, r) && o in r
      requires body[o].Userdata? && marked[o] == Black
      modifies this`marked, this`gray
      ensures Tri(body, marked, gray, grayagain, x) && Grew(old(marked), marked, r) && marked[o] == Black
      decreases Whites(marked), 3
    {
      hide Tri, ClosedSet, Whites;
      Members(body, marked, gray, grayagain, x + {o}, r, o);
      if body[o].meta.Some? {
        MarkObject(body[o].meta.value, x + {o}, r);
      }
      ghost var m1 := marked;
      MoreMarked(old(marked), m1, r);
      MarkObject(body[o].env, x + {o}, r);
      GrewMarks(m1, marked, r);
      GrewTrans(old(marked), m1, marked, r);
      CoverDrop(body, marked, gray, grayagain, x, o);
    }

    method MarkUpvalue(o: Id, ghost x: set<Id>, ghost r: set<Id>)
      requires Tri(body, marked, gray, grayagain, x + {o}) && ClosedSet(body, r) && o in r
      requires body[o].UpVal? && Marked(marked, o)
      modifies this`marked, this`gray
      ensures Tri(body, marked, gray, grayagain, x) && Grew(old(marked), marked, r) && marked[o] == old(marked)[o]
      decreases Whites(marked), 3
    {
      hide Tri, ClosedSet, Whites;
      Members(body, marked, gray, grayagain, x + {o}, r, o);
      MarkValue(UpvalValue(body, body[o].cell), x + {o}, r);
      CoverDrop(body, marked, gray, grayagain, x, o);
    }

    method MarkObject(o: Id, ghost x: set<Id>, ghost r: set<Id>)
      requires Tri(body, marked, gray, grayagain, x) && ClosedSet(body, r) && o in r
      modifies this`marked, this`gray
      ensures Tri(body, marked, gray, grayagain, x) && Grew(old(marked), marked, r) && Marked(marked, o)
      decreases Whites(marked), 2
    {
      if marked[o].White? {
        Mark(o, x, r);
      }
    }

    method MarkValue(v: Value, ghost x: set<Id>, ghost r: set<Id>)
      requires Tri(body, marked, gray, grayagain, x) && ClosedSet(body, r) && ValueRefs(v) <= r
      modifies this`marked, this`gray
      ensures Tri(body, marked, gray, grayagain, x) && Grew(old(marked), marked, r)
      ensures forall i :: i in ValueRefs(v) ==> Marked(marked, i)
      decreases Whites(marked), 2
    {
      if v.Ref? && marked[v.id].White? {
        Mark(v.id, x, r);
      }
    }

    // ----- traversal -----

    // Marks the metatable and the entries, and removes the keys of empty entries.
    method TraverseTable(o: Id, ghost x: set<Id>, ghost r: set<Id>)
      requires Tri(body, marked, gray, grayagain, x + {o}) && ClosedSet(body, r) && o in r && body[o].Table?
      requires OpenLevels(body) && Tops(body)
      modifies this`body, this`marked, this`gray
      ensures body == old(body)[o := TidyBody(old(body)[o])]
      ensures Tri(body, marked, gray, grayagain, x) && Grew(old(marked), marked, r) && ClosedSet(body, r)
      ensures OpenLevels(body) && Tops(body)
    {
      hide Tri, ClosedSet, Grew, OpenLevels, Tops, Tidied;
      Members(body, marked, gray, grayagain, x + {o}, r, o);
      GrewRefl(marked, r);
      var meta, slots := body[o].meta, body[o].slots;
      if meta.Some? {
        MarkObject(meta.value, x + {o}, r);
      }
      var i, tidy := |slots|, slots;
      while i != 0
        invariant body == old(body) && |tidy| == |slots|
        invariant forall j {:trigger tidy[j]} :: 0 <= j < |slots| ==>
                    tidy[j] == if j < i then slots[j] else TidySlot(slots[j])
        invariant 0 <= i <= |slots| && Tri(body, marked, gray, grayagain, x + {o}) && Grew(old(marked), marked, r)
        invariant meta.Some? ==> Marked(marked, meta.value)
        invariant forall j, id :: i <= j < |slots| && id in SlotRefs(slots[j]) ==> Marked(marked, id)
      {
        i := i - 1;
        ghost var m1 := marked;
        assert SlotRefs(slots[i]) <= r by { SlotIn(slots, i); }
        if slots[i].val.Nil? {
          tidy := tidy[i := TidySlot(slots[i])];  // removeentry
        } else {
          MarkValue(slots[i].key, x + {o}, r);
          ghost var m2 := marked;
          MarkValue(slots[i].val, x + {o}, r);
          GrewMarks(m2, marked, r);
          GrewTrans(m1, m2, marked, r);
          GrewMarks(m1, marked, r);
          GrewTrans(old(marked), m1, marked, r);
        }
      }
      assert tidy == TidySlots(slots);
      TidyKeepsTri(body, marked, gray, grayagain, x, o);
      TidiedRefs(body, body[o := TidyBody(body[o])]);
      ClosedStays(body, body[o := TidyBody(body[o])], r);
      body := body[o := Table(meta, tidy)];
    }

    // The values vs, in order.
    method MarkValues(vs: seq<Value>, ghost x: set<Id>, ghost r: set<Id>)
      requires Tri(body, marked, gray, grayagain, x) && ClosedSet(body, r) && ValuesRefs(vs) <= r
      modifies this`marked, this`gray
      ensures Tri(body, marked, gray, grayagain, x) && Grew(old(marked), marked, r)
      ensures forall id :: id in ValuesRefs(vs) ==> Marked(marked, id)
    {
      hide Tri, ClosedSet, Grew;
      GrewRefl(marked, r);
      for i := 0 to |vs|
        invariant Tri(body, marked, gray, grayagain, x) && Grew(old(marked), marked, r)
        invariant forall j :: 0 <= j < i && vs[j].Ref? ==> Marked(marked, vs[j].id)
      {
        ghost var m1 := marked;
        assert vs[i].Ref? ==> vs[i].id in ValuesRefs(vs);
        MarkValue(vs[i], x, r);
        GrewMarks(m1, marked, r);
        GrewTrans(old(marked), m1, marked, r);
      }
    }

    method MarkObjects(ids: seq<Id>, ghost x: set<Id>, ghost r: set<Id>)
      requires Tri(body, marked, gray, grayagain, x) && ClosedSet(body, r) && IdsRefs(ids) <= r
      modifies this`marked, this`gray
      ensures Tri(body, marked, gray, grayagain, x) && Grew(old(marked), marked, r)
      ensures forall id :: id in IdsRefs(ids) ==> Marked(marked, id)
    {
      hide Tri, ClosedSet, Grew;
      GrewRefl(marked, r);
      for i := 0 to |ids|
        invariant Tri(body, marked, gray, grayagain, x) && Grew(old(marked), marked, r)
        invariant forall j :: 0 <= j < i ==> Marked(marked, ids[j])
      {
        ghost var m1 := marked;
        assert ids[i] in IdsRefs(ids);
        MarkObject(ids[i], x, r);
        GrewMarks(m1, marked, r);
        GrewTrans(old(marked), m1, marked, r);
      }
    }

    // stringmark, for each of the names
    method MarkNames(names: seq<Id>, ghost x: set<Id>, ghost r: set<Id>)
      requires Tri(body, marked, gray, grayagain, x) && ClosedSet(body, r) && IdsRefs(names) <= r
      requires forall n :: n in names ==> n in body && body[n].Str?
      modifies this`marked
      ensures Tri(body, marked, gray, grayagain, x) && Grew(old(marked), marked, r)
      ensures forall id :: id in IdsRefs(names) ==> Marked(marked, id)
    {
      hide Tri, ClosedSet, Grew;
      GrewRefl(marked, r);
      for i := 0 to |names|
        invariant Tri(body, marked, gray, grayagain, x) && Grew(old(marked), marked, r)
        invariant forall j :: 0 <= j < i ==> Marked(marked, names[j])
      {
        ghost var m1 := marked;
        assert names[i] in IdsRefs(names);
        StringMarked(body, marked, gray, grayagain, x, names[i]);
        marked := marked[names[i] := Gray];
        GrewWider(m1, marked, {names[i]}, r);
        GrewMarks(m1, marked, r);
        GrewTrans(old(marked), m1, marked, r);
      }
    }

    method TraverseProto(o: Id, ghost x: set<Id>, ghost r: set<Id>)
      requires Tri(body, marked, gray, grayagain, x + {o}) && ClosedSet(body, r) && o in r && body[o].Proto?
      modifies this`marked, this`gray
      ensures Tri(body, marked, gray, grayagain, x) && Grew(old(marked), marked, r)
    {
      hide Tri, ClosedSet, Grew;
      Members(body, marked, gray, grayagain, x + {o}, r, o);
      Names(body, marked, gray, grayagain, x + {o}, r, o);
      MarkNames(body[o].names, x + {o}, r);
      ghost var m1 := marked;
      MarkValues(body[o].k, x + {o}, r);
      GrewMarks(m1, marked, r);
      GrewTrans(old(marked), m1, marked, r);
      ghost var m2 := marked;
      MarkObjects(body[o].protos, x + {o}, r);
      GrewMarks(m2, marked, r);
      GrewTrans(old(marked), m2, marked, r);
      CoverDrop(body, marked, gray, grayagain, x, o);
    }

    method TraverseClosure(o: Id, ghost x: set<Id>, ghost r: set<Id>)
      requires Tri(body, marked, gray, grayagain, x + {o}) && ClosedSet(body, r) && o in r
      requires body[o].LuaFunction? || body[o].CFunction?
      modifies this`marked, this`gray
      ensures Tri(body, marked, gray, grayagain, x) && Grew(old(marked), marked, r)
    {
      hide Tri, ClosedSet, Grew;
      Members(body, marked, gray, grayagain, x + {o}, r, o);
      MarkObject(body[o].env, x + {o}, r);
      ghost var m1 := marked;
      if body[o].CFunction? {
        MarkValues(body[o].values, x + {o}, r);
        GrewMarks(m1, marked, r);
        GrewTrans(old(marked), m1, marked, r);
      } else {
        MarkObject(body[o].proto, x + {o}, r);
        GrewMarks(m1, marked, r);
        GrewTrans(old(marked), m1, marked, r);
        ghost var m2 := marked;
        MarkObjects(body[o].upvals, x + {o}, r);
        GrewMarks(m2, marked, r);
        GrewTrans(old(marked), m2, marked, r);
      }
      CoverDrop(body, marked, gray, grayagain, x, o);
    }

    // Marks the live part of the stack and clears the rest.
    method TraverseStack(o: Id, ghost x: set<Id>, ghost r: set<Id>)
      requires Tri(body, marked, gray, grayagain, x + {o}) && ClosedSet(body, r) && o in r && OpenLevels(body)
      requires Tops(body)
      requires body[o].Thread? && body[o].top <= |body[o].stack|
      modifies this`body, this`marked, this`gray
      ensures body == old(body)[o := TidyBody(old(body)[o])]
      ensures Tri(body, marked, gray, grayagain, x) && Grew(old(marked), marked, r) && ClosedSet(body, r)
      ensures OpenLevels(body) && Tops(body)
    {
      hide Tri, ClosedSet, Grew, OpenLevels, Tops, Tidied;
      Members(body, marked, gray, grayagain, x + {o}, r, o);
      var b := body[o];
      MarkValue(b.gt, x + {o}, r);
      ghost var m1 := marked;
      MarkValues(b.stack[..b.top], x + {o}, r);
      GrewMarks(m1, marked, r);
      GrewTrans(old(marked), m1, marked, r);
      TidyKeepsTri(body, marked, gray, grayagain, x, o);
      TidiedRefs(body, body[o := TidyBody(b)]);
      ClosedStays(body, body[o := TidyBody(b)], r);
      body := body[o := b.(stack := ClearedStack(b))];
    }

    // Traverses one gray object, turning it black; threads stay gray, for the atomic phase.
    method PropagateMark(ghost x: set<Id>, ghost r: set<Id>)
      requires Tri(body, marked, gray, grayagain, x) && ClosedSet(body, r) && OpenLevels(body) && Tops(body)
      requires gray != [] && gray[0] in r
      modifies this`body, this`marked, this`gray, this`grayagain
      ensures Tri(body, marked, gray, grayagain, x) && ClosedSet(body, r) && OpenLevels(body) && Tops(body)
      ensures Tidied(old(body), body)
      ensures Advanced(old(marked), marked, r)
      ensures forall i :: i in old(grayagain) ==> i in grayagain
      ensures Untraversed(marked, gray) < old(Untraversed(marked, gray))
    {
      hide Tri, ClosedSet, Grew, OpenLevels, Tops, Tidied;
      var o := gray[0];
      ghost var body0, m0, g0, a0 := body, marked, gray, grayagain;
      Members(body, marked, gray, grayagain, x, r, o);
      GrayOne(body, marked, gray, grayagain, x);
      TidiedRefl(body);
      if body[o].Thread? {
        TurnAgain(body, marked, gray, grayagain, x);
        gray, grayagain := gray[1..], [o] + grayagain;
        GrewRefl(marked, r);
        TopOf(body, o);
        TraverseStack(o, x, r);
        TidyOne(body0, o);
      } else {
        TurnBlack(body, marked, gray, grayagain, x);
        marked, gray := marked[o := Black], gray[1..];
        if body[o].Table? {
          TraverseTable(o, x, r);
          TidyOne(body0, o);
        } else if body[o].Proto? {
          TraverseProto(o, x, r);
        } else {
          TraverseClosure(o, x, r);
        }
      }
      TraversedMarks(m0, marked, o, r);
      assert body[o].Thread? ==> o in grayagain;
      BlackenedAdvanced(m0, marked, o, r);
      OffTheList(body, marked, gray, grayagain, x, o);
      TraversedOne(body0, m0, g0, a0, x, body, marked, gray, grayagain, x, r);
    }

    method PropagateAll(ghost x: set<Id>, ghost r: set<Id>)
      requires Tri(body, marked, gray, grayagain, x) && ClosedSet(body, r) && OpenLevels(body) && Tops(body)
      requires forall i :: Marked(marked, i) ==> i in r
      modifies this`body, this`marked, this`gray, this`grayagain
      ensures Tri(body, marked, gray, grayagain, x) && ClosedSet(body, r) && OpenLevels(body) && Tops(body)
      ensures Tidied(old(body), body)
      ensures gray == [] && Advanced(old(marked), marked, r)
      ensures forall i :: i in old(grayagain) ==> i in grayagain
    {
      hide Tri, ClosedSet, Grew, Advanced, OpenLevels, Tops, Tidied;
      TidiedRefl(body);
      GrewRefl(marked, r);
      GrewAdvanced(marked, marked, r);
      while gray != []
        invariant Tri(body, marked, gray, grayagain, x) && ClosedSet(body, r) && OpenLevels(body) && Tops(body)
        invariant Tidied(old(body), body)
        invariant Advanced(old(marked), marked, r)
        invariant forall i :: i in old(grayagain) ==> i in grayagain
        decreases Untraversed(marked, gray)
      {
        ghost var m1, body1 := marked, body;
        GrayOne(body, marked, gray, grayagain, x);
        AdvancedMarks(old(marked), marked, r);
        PropagateMark(x, r);
        AdvancedTrans(old(marked), m1, marked, r);
        TidiedTrans(old(body), body1, body);
      }
    }

    // ----- the mark phase -----

    method MarkMt(ghost x: set<Id>, ghost r: set<Id>)
      requires Tri(body, marked, gray, grayagain, x) && ClosedSet(body, r) && MtRefs(mt) <= r
      modifies this`marked, this`gray
      ensures Tri(body, marked, gray, grayagain, x) && Grew(old(marked), marked, r)
      ensures forall id :: id in MtRefs(mt) ==> Marked(marked, id)
    {
      hide Tri, ClosedSet, Grew;
      GrewRefl(marked, r);
      for i := 0 to |mt|
        invariant Tri(body, marked, gray, grayagain, x) && Grew(old(marked), marked, r)
        invariant forall j :: 0 <= j < i && mt[j].Some? ==> Marked(marked, mt[j].value)
      {
        ghost var m1 := marked;
        if mt[i].Some? {
          assert mt[i].value in MtRefs(mt);
          MarkObject(mt[i].value, x, r);
          GrewMarks(m1, marked, r);
          GrewTrans(old(marked), m1, marked, r);
        }
      }
    }

    // Marks the root set; r is any closed set that holds it.
    method MarkRoot(ghost r: set<Id>)
      requires Owned(H(), hash) && Safe(H()) && (forall i :: i in marked ==> Current(H(), i))
      requires ClosedSet(body, r) && Roots(H()) <= r
      modifies this`marked, this`gray, this`grayagain, this`gcstate
      ensures Valid() && gcstate == Propagate && Marking(old(H()), H()) && body == old(body)
      ensures (forall i :: Marked(marked, i) ==> i in r) && forall i :: i in MtRefs(mt) ==> Marked(marked, i)
    {
      hide Tri, ClosedSet, Grew, Owned, Safe, Marking, MtRefs, ValueRefs, Inv, Marked;
      ghost var h0, x := H(), Ids(uvhead);
      ClearLists();
      AllWhite(h0, hash, x);
      MainThread(h0, hash);
      MarkRoots(x, r);
      gcstate := Propagate;
      RootMarked(h0, H(), hash, r);
    }

    method ClearLists()
      modifies this`gray, this`grayagain
      ensures H() == old(H()).(gray := [], grayagain := [])
    {
      gray, grayagain := [], [];
    }

    method MarkRoots(ghost x: set<Id>, ghost r: set<Id>)
      requires Tri(body, marked, gray, grayagain, x) && ClosedSet(body, r)
      requires mainthread in r && ValueRefs(registry) <= r && MtRefs(mt) <= r && mainthread in body
      requires body[mainthread].Thread?
      modifies this`marked, this`gray
      ensures Tri(body, marked, gray, grayagain, x) && Grew(old(marked), marked, r)
      ensures Marked(marked, mainthread) && forall i :: i in ValueRefs(registry) ==> Marked(marked, i)
      ensures forall i :: i in MtRefs(mt) ==> Marked(marked, i)
    {
      hide Tri, ClosedSet, Grew, MtRefs;
      ghost var m0 := marked;
      MarkObject(mainthread, x, r);
      ghost var m1 := marked;
      Members(body, marked, gray, grayagain, x, r, mainthread);
      MarkValue(body[mainthread].gt, x, r);
      GrewTrans(m0, m1, marked, r);
      GrewMarks(m1, marked, r);
      ghost var m2 := marked;
      MarkValue(registry, x, r);
      GrewTrans(m0, m2, marked, r);
      GrewMarks(m2, marked, r);
      ghost var m3 := marked;
      MarkMt(x, r);
      GrewTrans(m0, m3, marked, r);
      GrewMarks(m3, marked, r);
    }

    // Marks the values of open upvalues, whose threads may be dead.
    method RemarkUpvals(ghost x: set<Id>, ghost r: set<Id>)
      requires Tri(body, marked, gray, grayagain, Ids(uvhead) + x) && ClosedSet(body, r)
      requires (forall i :: Marked(marked, i) ==> i in r) && forall u :: u in uvhead ==> u in body && IsOpen(body[u])
      modifies this`marked, this`gray
      ensures Tri(body, marked, gray, grayagain, x) && Grew(old(marked), marked, r)
    {
      hide Tri, ClosedSet, Grew;
      GrewRefl(marked, r);
      assert uvhead[0..] == uvhead;
      for i := 0 to |uvhead|
        invariant Tri(body, marked, gray, grayagain, Ids(uvhead[i..]) + x) && Grew(old(marked), marked, r)
        invariant forall i :: Marked(marked, i) ==> i in r
      {
        ghost var m1, u, x1 := marked, uvhead[i], Ids(uvhead[i + 1..]) + x;
        assert Ids(uvhead[i..]) + x == x1 + {u} by { assert uvhead[i..] == [u] + uvhead[i + 1..]; }
        Painted(body, marked, gray, grayagain, x1 + {u}, uvhead[i]);
        if marked[uvhead[i]] == Gray {
          Members(body, marked, gray, grayagain, x1 + {u}, r, u);
          MarkValue(UpvalValue(body, body[uvhead[i]].cell), x1 + {u}, r);
        } else {
          GrewRefl(marked, r);
        }
        CoverDrop(body, marked, gray, grayagain, x1, u);
        GrewTrans(old(marked), m1, marked, r);
        NewlyMarked(m1, marked, r);
      }
      assert Ids(uvhead[|uvhead|..]) + x == x;
    }

    // The end of the mark phase, in one go.
    method Atomic(ghost r: set<Id>)
      requires Valid() && gcstate == Propagate && gray == []
      requires ClosedSet(body, r) && Roots(H()) <= r && forall i :: Marked(marked, i) ==> i in r
      modifies this
      ensures Valid() && gcstate == SweepString && KeepsLive(old(H()), H()) && body.Keys == old(body.Keys)
      ensures Tidied(old(body), body) && fixed == old(fixed) && Nearer(old(H()), H())
      ensures forall i :: Live(H(), i) ==> i in r
    {
      hide Tri, ClosedSet, Advanced, Owned, Safe, Tidied, OpenLevels, Tops, Roots, PhaseInv, Inv, MtRefs, Live,
        KeepsLive;
      ghost var h0 := H();
      PropagateParts(h0, hash);
      OwnedLevels(h0, hash);
      UvParts(h0, hash);
      RootParts(h0, r);
      FinishMarking(r);
      AdvancedMarks(h0.marked, marked, r);
      ghost var h1 := H();
      assert h1 == h0.(body := body, marked := marked, gray := [], grayagain := grayagain);
      Flip();
      AtomicEnds(h0, h1, H(), hash, r);
    }

    // The other white becomes current, and the sweep starts.
    method Flip()
      modifies this`white, this`swept, this`tosweep, this`sweepstr, this`gcstate
      ensures H() == SweepStart(old(H()).(white := !old(white)))
    {
      white := !white;
      StartSweep();
    }

    method StartSweep()
      modifies this`swept, this`tosweep, this`sweepstr, this`gcstate
      ensures H() == SweepStart(old(H()))
    {
      sweepstr := 0;
      swept, tosweep := [], swept + tosweep;
      gcstate := SweepString;
    }

    // The mark phase up to the point where nothing is gray but threads and open upvalues,
    // and those are settled too.
    method FinishMarking(ghost r: set<Id>)
      requires Tri(body, marked, [], grayagain, Ids(uvhead) + Ids(grayagain)) && gray == [] && OpenLevels(body)
      requires Tops(body)
      requires ClosedSet(body, r) && (forall i :: Marked(marked, i) ==> i in r) && running in r && MtRefs(mt) <= r
      requires forall u :: u in uvhead ==> u in body && IsOpen(body[u])
      modifies this`body, this`marked, this`gray, this`grayagain
      ensures Tri(body, marked, [], grayagain, {}) && gray == [] && Tidied(old(body), body)
      ensures Advanced(old(marked), marked, r)
      ensures Marked(marked, running) && forall id :: id in MtRefs(mt) ==> Marked(marked, id)
    {
      hide Tri, ClosedSet, Grew, Advanced, Tidied, OpenLevels, Tops, MtRefs;
      ghost var m0, x, body0 := marked, Ids(grayagain), body;
      RemarkUpvals(x, r);
      GrewAdvanced(m0, marked, r);
      AdvancedMarks(m0, marked, r);
      ghost var m1 := marked;
      PropagateAll(x, r);
      AdvancedTrans(m0, m1, marked, r);
      ghost var body1, m2 := body, marked;
      MarkOthers(x, r);
      AdvancedTrans(m0, m2, marked, r);
      AdvancedMarks(m0, marked, r);
      ghost var m3 := marked;
      PropagateAll(x, r);
      AdvancedTrans(m0, m3, marked, r);
      AdvancedMarks(m0, marked, r);
      AdvancedMarks(m3, marked, r);
      TidiedTrans(body0, body1, body);
      ghost var body2, m4 := body, marked;
      Regray(body, marked, grayagain, x);
      gray, grayagain := grayagain, [];
      PropagateAll({}, r);
      AdvancedTrans(m0, m4, marked, r);
      AdvancedMarks(m4, marked, r);
      TidiedTrans(body0, body2, body);
    }

    method MarkOthers(ghost x: set<Id>, ghost r: set<Id>)
      requires Tri(body, marked, gray, grayagain, x) && ClosedSet(body, r) && running in r && MtRefs(mt) <= r
      modifies this`marked, this`gray
      ensures Tri(body, marked, gray, grayagain, x) && Advanced(old(marked), marked, r)
      ensures Marked(marked, running) && forall id :: id in MtRefs(mt) ==> Marked(marked, id)
    {
      hide Tri, ClosedSet, Grew, Advanced, MtRefs;
      MarkObject(running, x, r);
      ghost var m1 := marked;
      MarkMt(x, r);
      GrewMarks(m1, marked, r);
      GrewTrans(old(marked), m1, marked, r);
      GrewAdvanced(old(marked), marked, r);
    }

    // ----- the sweep phases -----

    // sweepwholelist, for a list of strings or of open upvalues
    method SweepWholeList(l: seq<Id>) returns (kept: seq<Id>)
      requires Distinct(l) && forall i :: i in l ==> i in body && i in marked
      requires (forall i :: i in uvhead ==> i in body && IsOpen(body[i]))
      modifies this`body, this`marked, this`uvhead
      ensures var d := DeadIn(old(H()), l);
              kept == Keep(l, d) && body == old(body) - d && uvhead == Keep(old(uvhead), d) &&
              marked == Whitened(old(marked) - d, kept, white)
    {
      hide Keep, Whitened, DeadIn;
      ghost var h0 := H();
      kept := [];
      SweepNone(h0);
      for i := 0 to |l|
        invariant var d := DeadIn(h0, l[..i]);
                  kept == Keep(l[..i], d) && body == h0.body - d && uvhead == Keep(h0.uvhead, d) &&
                  marked == Whitened(h0.marked - d, kept, white)
      {
        var u := l[i];
        ghost var d := DeadIn(h0, l[..i]);
        assert l[..i] + [u] == l[..i + 1];
        SweepAnother(h0, l[..i], u) by { Prefix(l, i + 1); }
        assert u !in kept by { Prefix(l, i + 1); NotBefore(l, i); }
        SweepColor(h0.marked, d, kept, u, Dead(h0, u) && u !in fixed, white);
        if marked[u] == White(!white) && u !in fixed {  // dead?
          if IsOpen(body[u]) {
            uvhead := Keep(uvhead, {u});  // unlinkupval
          } else {
            KeepAll(uvhead, {u});
          }
          body, marked := body - {u}, marked - {u};
        } else {
          marked, kept := marked[u := White(white)], kept + [u];
        }
      }
      assert l[..|l|] == l;
    }

    // The chain of the string table the sweep stands at.
    method SweepChain()
      requires sweepstr < |strt| && Distinct(strt[sweepstr])
      requires forall i :: i in strt[sweepstr] ==> i in body && i in marked
      requires forall i :: i in uvhead ==> i in body && IsOpen(body[i])
      requires Keep(uvhead, DeadIn(H(), strt[sweepstr])) == uvhead
      modifies this`body, this`marked, this`uvhead, this`strt
      ensures H() == SweepBucket(old(H()), sweepstr) && |strt| == old(|strt|)
    {
      hide Keep, Whitened, DeadIn;
      var kept := SweepWholeList(strt[sweepstr]);
      strt := strt[sweepstr := kept];
    }

    // The GCSsweepstring case of singlestep: one bucket of the string table.
    method SweepStrings()
      requires Valid() && gcstate == SweepString
      modifies this
      ensures Valid() && H() == SweepStringStep(old(H())) && KeepsLive(old(H()), H()) && Fades(old(H()), H())
    {
      hide Inv, KeepsLive, Fades, Distinct, DeadIn, SweepBucket;
      SweepStringParts(H(), hash);
      SweptString(H(), hash);
      SweepChain();
      sweepstr := sweepstr + 1;
      if sweepstr >= |strt| {
        gcstate := Sweep;
      }
    }

    // The open upvalues of a thread.
    method SweepOpen(th: Id)
      requires Owned(H(), hash) && Safe(H()) && SweepColors(H()) && th in body && body[th].Thread? && th in tosweep
      modifies this`body, this`marked, this`uvhead
      ensures H() == SweepUpvals(old(H()), th)
      ensures Owned(H(), hash) && Safe(H()) && SweepColors(H()) && KeepsLive(old(H()), H()) && Fades(old(H()), H())
      ensures th in body && body[th].Thread? && th in marked && marked[th] == old(marked)[th]
      ensures forall u :: u in body[th].openupval ==> Current(H(), u)
    {
      hide Owned, Safe, SweepColors, Keep, Whitened, KeepsLive, Fades, DeadIn, SweptTo, SweptIntact;
      ghost var h0, d := H(), DeadIn(H(), body[th].openupval);
      SweepOpenParts(h0, th, hash);
      UpvalsSwept(h0, th, hash);
      UpvalsOwned(h0, th, hash);
      UpvalsColor(h0, th, hash);
      SweptSafe(h0, SweepUpvals(h0, th), d, hash);
      SweptFades(h0, SweepUpvals(h0, th), d);
      var b := body[th];
      var kept := SweepWholeList(b.openupval);
      body := body[th := b.(openupval := kept)];
    }

    // The first open upvalue of a thread, not dead: its value moves into it, and it joins rootgc.
    method CloseFirst(th: Id)
      requires th in body && body[th].Thread? && body[th].openupval != [] && body[th].openupval[0] in body
      requires body[body[th].openupval[0]].UpVal?
      modifies this`body, this`uvhead, this`swept, this`tosweep
      ensures H() == CloseOne(old(H()), th)
    {
      hide Keep;
      var b := body[th];
      var u, v := b.openupval[0], UpvalValue(body, body[b.openupval[0]].cell);
      body := body[th := b.(openupval := b.openupval[1..])];
      uvhead := Keep(uvhead, {u});                             // unlinkupval
      body := body[u := UpVal(Closed(v))];
      if swept == [] {
        tosweep := [u] + tosweep;
      } else {
        swept := [u] + swept;
      }
    }

    // Unlinks and frees the object the sweep stands at; a thread first closes its upvalues.
    method FreeObject(o: Id)
      requires Owned(H(), hash) && Safe(H()) && SweepColors(H()) && tosweep != [] && o == tosweep[0] && Dead(H(), o)
      requires o in body
      requires body[o].Thread? ==> forall u :: u in body[o].openupval ==> Current(H(), u)
      modifies this`body, this`marked, this`uvhead, this`swept, this`tosweep
      ensures Owned(H(), hash) && Safe(H()) && SweepColors(H()) && KeepsLive(old(H()), H()) && Fades(old(H()), H())
      ensures |tosweep| + |uvhead| < old(|tosweep| + |uvhead|) && o !in body
    {
      hide Owned, Safe, SweepColors, CloseOne, KeepsLive, Fades, Keep, UpvalValue, LiveStack, Intact, Freed;
      ghost var h0 := H();
      AsideOwned(h0, o, hash);
      tosweep := tosweep[1..];
      while body[o].Thread? && body[o].openupval != []
        invariant o in body && (body[o].Thread? ==> forall u :: u in body[o].openupval ==> Current(H(), u))
        invariant var g := Aside(H(), o);
                  Owned(g, hash) && Safe(g) && SweepColors(g) && KeepsLive(h0, g) && Fades(h0, g) && Dead(g, o)
        invariant o !in tosweep && |tosweep| + |uvhead| < |h0.tosweep| + |h0.uvhead|
        decreases if body[o].Thread? then |body[o].openupval| else 0
      {
        CloseDying(o, h0);
      }
      ghost var g := Aside(H(), o);
      AsideFreed(H(), o);
      FreedKeeps(g, o, hash);
      FreedFades(g, o, hash);
      KeepsLiveTrans(h0, g, Freed(g, o));
      FadesTrans(h0, g, Freed(g, o));
      body, marked := body - {o}, marked - {o};
    }

    method CloseDying(o: Id, ghost h0: Heap)
      requires o in body && body[o].Thread? && body[o].openupval != []
      requires forall u :: u in body[o].openupval ==> Current(H(), u)
      requires var g := Aside(H(), o);
               Owned(g, hash) && Safe(g) && SweepColors(g) && KeepsLive(h0, g) && Fades(h0, g) && Dead(g, o)
      requires o !in tosweep
      modifies this`body, this`uvhead, this`swept, this`tosweep
      ensures o in body && body[o].Thread? && body[o].openupval == old(body[o].openupval)[1..]
      ensures forall u :: u in body[o].openupval ==> Current(H(), u)
      ensures var g := Aside(H(), o);
              Owned(g, hash) && Safe(g) && SweepColors(g) && KeepsLive(h0, g) && Fades(h0, g) && Dead(g, o)
      ensures o !in tosweep && |tosweep| + |uvhead| <= old(|tosweep| + |uvhead|)
    {
      hide Owned, Safe, SweepColors, CloseOne, KeepsLive, Fades, Keep;
      ghost var h1 := H();
      ghost var g1, u := Aside(h1, o), body[o].openupval[0];
      FirstOpen(g1, o, hash);
      assert Current(g1, u);
      CloseShape(g1, o, hash);
      CloseOwned(g1, o, hash);
      CloseSafe(g1, o, hash);
      CloseColors(g1, o, hash);
      CloseFades(g1, o, hash);
      KeepsLiveTrans(h0, g1, CloseOne(g1, o));
      FadesTrans(h0, g1, CloseOne(g1, o));
      AsideClose(h1, o, o);
      CloseCount(h1, o);
      CloseFirst(o);
      forall v | v in body[o].openupval ensures Current(H(), v) {
        assert v in h1.body[o].openupval && Current(h1, v);
      }
    }

    // One turn of sweeplist over rootgc.
    method SweepOne()
      requires Owned(H(), hash) && Safe(H()) && SweepColors(H()) && tosweep != []
      modifies this`body, this`marked, this`uvhead, this`swept, this`tosweep
      ensures Owned(H(), hash) && Safe(H()) && SweepColors(H()) && KeepsLive(old(H()), H()) && Fades(old(H()), H())
      ensures |tosweep| + |uvhead| < old(|tosweep| + |uvhead|) && Handled(old(H()), H())
    {
      hide Owned, Safe, SweepColors, KeepsLive, Fades, Keep;
      var curr := tosweep[0];
      ghost var h0 := H();
      SweptIds(h0, hash);
      StringIds(h0, hash);
      assert curr in tosweep;
      FadesRefl(h0);
      if body[curr].Thread? {
        SweepOpen(curr);
        FewerOpen(h0, curr);
      }
      ghost var h1 := H();
      if marked[curr] != White(!white) {
        WhitenKeeps(h1, hash);
        WhitenFades(h1);
        KeepsLiveTrans(h0, h1, Whiten(h1));
        FadesTrans(h0, h1, Whiten(h1));
        WhitenObject();
      } else {
        FreeObject(curr);
        KeepsLiveTrans(h0, h1, H());
        FadesTrans(h0, h1, H());
      }
    }

    method WhitenObject()
      requires tosweep != []
      modifies this`marked, this`swept, this`tosweep
      ensures H() == Whiten(old(H()))
    {
      marked := marked[tosweep[0] := White(white)];
      swept, tosweep := swept + [tosweep[0]], tosweep[1..];
    }

    // The GCSsweep case of singlestep: at most SWEEPMAX objects.
    method SweepSome() returns (ghost hs: seq<Heap>)
      requires Valid() && gcstate == Sweep
      modifies this
      ensures Valid() && KeepsLive(old(H()), H()) && Fades(old(H()), H())
      ensures hs != [] && SweptInTurn(hs) && hs[0] == old(H()) && (hs[|hs| - 1].tosweep == [] || |hs| == SWEEPMAX + 1)
      ensures var h := hs[|hs| - 1]; H() == h.(phase := if h.tosweep == [] then Finalize else Sweep)
      ensures gcstate == Finalize || (gcstate == Sweep && |tosweep| + |uvhead| < old(|tosweep| + |uvhead|))
    {
      hide Owned, Safe, SweepColors, KeepsLive, Fades, SweptInTurn, Handled;
      ghost var h0 := H();
      FirstInTurn(h0);
      SweepParts(h0, hash);
      FadesRefl(h0);
      hs := [h0];
      var count := SWEEPMAX;
      while tosweep != [] && count > 0
        invariant Owned(H(), hash) && Safe(H()) && SweepColors(H()) && KeepsLive(h0, H()) && Fades(h0, H())
        invariant 0 <= count <= SWEEPMAX && |tosweep| + |uvhead| <= |h0.tosweep| + |h0.uvhead|
        invariant count < SWEEPMAX ==> |tosweep| + |uvhead| < |h0.tosweep| + |h0.uvhead|
        invariant gcstate == Sweep && |hs| == SWEEPMAX + 1 - count
        invariant hs != [] && SweptInTurn(hs) && hs[0] == h0 && hs[|hs| - 1] == H()
        decreases count
      {
        ghost var h1 := H();
        SweepOne();
        OneMoreInTurn(hs, H());
        hs := hs + [H()];
        KeepsLiveTrans(h0, h1, H());
        FadesTrans(h0, h1, H());
        count := count - 1;
      }
      ghost var h2 := H();
      if tosweep == [] {
        SweepDone(h2, hash);
        gcstate := Finalize;
      }
      SweepEnds(h0, h2, H(), hash);
    }

    method PropagateStep(ghost r: set<Id>)
      requires Valid() && gcstate == Propagate && gray != []
      requires ClosedSet(body, r) && forall i :: Marked(marked, i) ==> i in r
      modifies this`body, this`marked, this`gray, this`grayagain
      ensures Valid() && KeepsLive(old(H()), H()) && Tidied(old(body), body)
      ensures ClosedSet(body, r) && forall i :: Marked(marked, i) ==> i in r
      ensures Untraversed(marked, gray) < old(Untraversed(marked, gray))
    {
      hide Tri, ClosedSet, Owned, Safe, Tidied, Advanced, OpenLevels, Tops, PhaseInv, KeepsLive, Inv;
      ghost var h0 := H();
      PropagateParts(h0, hash);
      OwnedLevels(h0, hash);
      GrayOne(body, marked, gray, grayagain, Ids(uvhead) + Ids(grayagain));
      PropagateMark(Excused(h0), r);
      AdvancedMarks(h0.marked, marked, r);
      PropagateKeeps(h0, H(), hash, r);
    }

    // ----- steps and cycles -----

    // The GCSpropagate case of singlestep.
    method MarkOn(ghost r: set<Id>) returns (cost: nat)
      requires Valid() && gcstate == Propagate
      requires ClosedSet(body, r) && Roots(H()) <= r && forall i :: Marked(marked, i) ==> i in r
      modifies this
      ensures Valid() && KeepsLive(old(H()), H()) && StepRel(old(H()), H(), r) && cost == CostOf(sizeOf, old(H()))
    {
      hide ClosedSet, Tidied, KeepsLive, Inv, Fades, Untraversed, Roots, Nearer;
      if gray != [] {
        ghost var h0 := H();
        GrayThere(h0, hash);
        cost := sizeOf(body[gray[0]]);
        PropagateStep(r);
        TraversedNear(h0, H());
      } else {
        cost := 0;
        Atomic(r);
      }
    }

    method SingleStep(ghost r: set<Id>) returns (cost: nat)
      requires Valid()
      requires gcstate == Pause || gcstate == Propagate ==> ClosedSet(body, r) && Roots(H()) <= r
      requires gcstate == Propagate ==> forall i :: Marked(marked, i) ==> i in r
      modifies this
      ensures Valid() && KeepsLive(old(H()), H()) && StepRel(old(H()), H(), r) && cost == CostOf(sizeOf, old(H()))
    {
      hide ClosedSet, Owned, Safe, Tidied, KeepsLive, Inv, Fades, Roots, Marking, Nearer, SweepStringStep;
      ghost var h0 := H();
      match gcstate {
        case Pause =>
          cost := 0;
          PauseParts(h0, hash);
          MarkRoot(r);
          StartKeeps(h0, H(), hash);
          BeginsNear(h0, H(), hash);
        case Propagate =>
          cost := MarkOn(r);
        case SweepString =>
          cost := SWEEPCOST;
          SweepStringParts(h0, hash);
          StringNear(h0);
          SweepStrings();
          FadesSame(h0, H());
        case Sweep =>
          cost := SWEEPMAX * SWEEPCOST;
          ghost var _ := SweepSome();
          FadesSame(h0, H());
          SomeNear(h0, H());
        case Finalize =>
          cost := 0;
          gcstate := Pause;
          EndKeeps(h0, H(), hash);
      }
    }

    // luaC_step: single steps until they have cost the limit or a cycle ends, and one at
    // least.  A call that begins a cycle and ends it leaves what is reachable or fixed.
    method Step(lim: int) returns (ghost hs: seq<Heap>)
      requires Valid()
      modifies this
      ensures Valid() && Went(sizeOf, hs, lim) && hs[0] == old(H()) && hs[|hs| - 1] == H()
      ensures Unseen(old(H()), H())
      ensures Enough(sizeOf, old(H()), lim) ==> gcstate == Pause
      ensures old(gcstate) == Pause && gcstate == Pause ==>
                forall i :: i in body <==> Reachable(old(H()), i) || i in fixed
    {
      hide Inv, ClosedSet, Roots, StepRel, Unseen, Reachable, InCycle, Going, CostOf, Spent, CycleSteps, OnlyTidied;
      ghost var h0, ha, r := H(), H(), if gcstate == Pause then ReachSet(H()) else body.Keys;
      NothingYet(h0, hash);
      var left := lim;
      hs := [h0];
      FirstGoing(sizeOf, h0, lim);
      FirstTidied(h0);
      while true
        invariant Valid() && hs != [] && Going(sizeOf, hs, lim) && left == lim - Spent(sizeOf, hs[..|hs| - 1])
        invariant hs[0] == h0 && hs[|hs| - 1] == H() && (|hs| > 1 ==> gcstate != Pause && left > 0)
        invariant Unseen(h0, H()) && OnlyTidied(hs)
        invariant h0.phase == Pause ==> r == ReachSet(h0) && (H() == h0 || InCycle(h0, ha, H(), r))
        decreases if gcstate == Pause then CycleSteps(H()) + 1 else Remaining(H())
      {
        var cost;
        ghost var h1 := H();
        cost, ha := StepOn(h0, ha, r);
        OneMoreStep(sizeOf, hs, lim, H());
        OneMoreTidied(hs, H());
        hs := hs + [H()];
        left := left - cost;
        if gcstate == Pause || left <= 0 { break; }
      }
      if h0.phase == Pause && gcstate == Pause {
        CycleEnds(h0, ha, H(), r, hash);
      }
      EnoughForAll(sizeOf, hs, lim);
    }

    // One of these steps, in a cycle that began in h0 or before.
    method StepOn(ghost h0: Heap, ghost ha: Heap, ghost r: set<Id>) returns (cost: nat, ghost ha': Heap)
      requires Valid() && Inv(h0, hash) && Unseen(h0, H())
      requires h0.phase == Pause ==>
                 r == ReachSet(h0) && (H() == h0 || (InCycle(h0, ha, H(), r) && gcstate != Pause))
      modifies this
      ensures Valid() && Unseen(h0, H()) && Nearer(old(H()), H()) && cost == CostOf(sizeOf, old(H()))
      ensures TidiesOnly(old(H()), H())
      ensures h0.phase == Pause ==> InCycle(h0, ha', H(), r)
    {
      hide Inv, ClosedSet, Roots, KeepsLive, StepRel, Unseen, Reachable, CostOf, Nearer, ReachSet, InCycle;
      ghost var h1 := H();
      ghost var marks := if h0.phase == Pause then r else body.Keys;
      StepReady(h0, ha, h1, r, hash);
      cost := SingleStep(marks);
      ha' := ha;
      if h0.phase == Pause {
        ha' := CycleGoes(h0, h1, H(), ha, r, hash);
      }
      StepTidies(h1, H(), marks);
      UnseenStays(h0, h1, H(), hash);
      StepNear(h1, H(), marks);
    }

    // luaC_fullgc: finishes the sweep under way, then runs a whole cycle.
    method FullGC()
      requires Valid()
      modifies this
      ensures Valid() && gcstate == Pause && (forall i :: i in marked ==> Current(H(), i))
      ensures forall i :: i in body <==> Reachable(old(H()), i) || i in fixed
      ensures fixed == old(fixed)
      ensures Unseen(old(H()), H())
    {
      hide Inv, ClosedSet, Roots, KeepsLive, Intact, Fades, Safe, Owned;
      ghost var h0 := H();
      FinishSweep();
      ghost var h1 := H();
      ghost var r := ReachSet(h1);
      KeysOf(h1, hash);
      ReachSetClosed(h1);
      Cycle(r, h1);
      CycleWhole(h0, h1, H(), r, hash);
    }

    // The first part: everything goes back to white.  From pause or propagate it frees nothing.
    method FinishSweep()
      requires Valid()
      modifies this
      ensures Valid() && gcstate == Finalize && KeepsLive(old(H()), H()) && Fades(old(H()), H()) && fixed == old(fixed)
      ensures old(gcstate) == Pause || old(gcstate) == Propagate ==> body.Keys == old(body.Keys)
    {
      hide Inv, ClosedSet, Roots, KeepsLive, Intact, Fades, Safe, Owned, Remaining, RootsSwept, OptionRefs;
      ghost var h0 := H();
      FadesRefl(h0);
      FadesSame(h0, h0);
      if gcstate == Pause || gcstate == Propagate {
        Reset();
      }
      while gcstate != Finalize
        invariant Valid() && KeepsLive(h0, H()) && Fades(h0, H()) && fixed == h0.fixed
        invariant gcstate == SweepString || gcstate == Sweep || gcstate == Finalize
        decreases Remaining(H())
      {
        ghost var h1 := H();
        var _ := SingleStep({});
        FinishOn(h0, h1, H());
      }
      if h0.phase == Pause || h0.phase == Propagate {
        ResetFreesNone(h0, H(), hash);
      }
    }

    method Reset()
      requires Valid() && (gcstate == Pause || gcstate == Propagate)
      modifies this`sweepstr, this`swept, this`tosweep, this`gray, this`grayagain, this`gcstate
      ensures H() == SweepStart(old(H()).(gray := [], grayagain := []))
      ensures Valid() && gcstate == SweepString && KeepsLive(old(H()), H()) && Fades(old(H()), H())
    {
      hide Inv, KeepsLive, Fades;
      ResetKeeps(H(), hash);
      ClearLists();
      StartSweep();
    }

    // The second part: from all white to all white.
    method Cycle(ghost r: set<Id>, ghost h1: Heap)
      requires Valid() && gcstate == Finalize && H() == h1 && r == ReachSet(h1) && ClosedSet(body, r) && Roots(h1) <= r
      modifies this
      ensures Valid() && gcstate == Pause && fixed == old(fixed)
      ensures exists ha: Heap :: AfterMark(h1, ha, r) && KeepsLive(ha, H()) && Fades(ha, H())
    {
      hide Inv, ClosedSet, Roots, KeepsLive, Intact, Fades, Safe, Owned, AfterMark, Tidied, StepRel;
      PauseParts(h1, hash);
      MarkRoot(r);
      StartKeeps(h1, H(), hash);
      KeepsRoots(h1, H());
      ghost var ha := H();
      while gcstate != Pause
        invariant Valid() && InCycle(h1, ha, H(), r)
        decreases Remaining(H())
      {
        ghost var h2 := H();
        var _ := SingleStep(r);
        ha := CycleGoes(h1, h2, H(), ha, r, hash);
        StepNear(h2, H(), r);
      }
    }

    // ----- the mutator -----

    // luaC_barrier: v has just been stored in o.
    method Barrier(o: Id, v: Value)
      requires InvBut(H(), o, v, hash)
      modifies this`marked, this`gray
      ensures Valid() && StaysLive(old(H()), H())
    {
      hide Tri, Owned, Safe, PhaseInv, Inv, Excused, LiveValue;
      ghost var h0 := H();
      ButParts(h0, o, v, hash);
      if v.Ref? && marked[v.id].White? && marked[o] == Black {
        if gcstate == Propagate {
          ButTri(h0, o, v, hash);
          Mark(v.id, Excused(h0) + {o}, body.Keys);
          ForwardKeeps(h0, H(), o, v, hash);
        } else {
          WhiteKeeps(h0, o, v, hash);
          marked := marked[o := White(white)];
        }
      } else {
        PlainKeeps(h0, o, v, hash);
      }
    }

    // luaC_barriert: v has just been stored in table t.
    method BarrierT(t: Id, v: Value)
      requires InvBut(H(), t, v, hash) && body[t].Table?
      modifies this`marked, this`grayagain
      ensures Valid()
    {
      hide Tri, Owned, Safe, PhaseInv, Inv, Excused, LiveValue;
      ghost var h0 := H();
      ButParts(h0, t, v, hash);
      if v.Ref? && marked[v.id].White? && marked[t] == Black {
        BackKeeps(h0, t, v, hash);
        marked := marked[t := Gray];
        grayagain := [t] + grayagain;
      } else {
        PlainKeeps(h0, t, v, hash);
      }
    }

    // Stores b' as the new contents of o, which refers to nothing new but v.
    method Store(o: Id, b': Body, v: Value)
      requires Valid() && o in body && SameKind(body[o], b') && Live(H(), o) && LiveValue(H(), v)
      requires b'.Proto? ==> forall n :: n in b'.names ==> n in body && body[n].Str?
      requires forall r :: r in OwnRefs(b') ==> r in OwnRefs(body[o]) || r in ValueRefs(v)
      modifies this`body
      ensures InvBut(H(), o, v, hash) && body == old(body)[o := b']
    {
      hide InvBut, Inv, OwnRefs;
      UpdatePhase(H(), o, b', v, hash);
      body := body[o := b'];
    }

    // t[k] = v, for the entry i where luaH_set finds k; a dead key is never found.
    method SetEntry(t: Id, i: nat, v: Value)
      requires Valid() && t in body && body[t].Table? && Live(H(), t) && i < |body[t].slots| && LiveValue(H(), v)
      requires body[t].slots[i].key.Plain? || body[t].slots[i].key.Ref?
      modifies this`body, this`marked, this`gray, this`grayagain
      ensures Valid()
      ensures body == old(body)[t :=
                                Table(old(body[t]).meta, old(body[t]).slots[i := Slot(old(body[t]).slots[i].key, v)])]
    {
      hide InvBut, Inv, OwnRefs, LiveValue;
      var b := body[t];
      SetSlotRefs(b.meta, b.slots, i, v);
      Store(t, Table(b.meta, b.slots[i := Slot(b.slots[i].key, v)]), v);
      BarrierT(t, v);
    }

    // newkey: an entry for a key that the table does not have
    method NewKey(t: Id, k: Value)
      requires Valid() && t in body && body[t].Table? && Live(H(), t) && LiveValue(H(), k)
      modifies this`body, this`marked, this`gray, this`grayagain
      ensures Valid() && body == old(body)[t := Table(old(body[t]).meta, old(body[t]).slots + [Slot(k, Nil)])]
    {
      hide InvBut, Inv, OwnRefs, LiveValue;
      var b := body[t];
      NewSlotRefs(b.meta, b.slots, k);
      Store(t, Table(b.meta, b.slots + [Slot(k, Nil)]), k);
      BarrierT(t, k);
    }

    // lua_setmetatable, for tables and userdata
    method SetMetatable(o: Id, mt': Option<Id>)
      requires Valid() && o in body && (body[o].Table? || body[o].Userdata?) && Live(H(), o)
      requires mt'.Some? ==> Live(H(), mt'.value)
      modifies this`body, this`marked, this`gray, this`grayagain
      ensures Valid()
      ensures body == old(body)[o := if old(body[o]).Table? then Table(mt', old(body[o]).slots)
                                else Userdata(mt', old(body[o]).env)]
    {
      hide InvBut, Inv;
      var v := if mt'.Some? then Ref(mt'.value) else Nil;
      if body[o].Table? {
        Store(o, Table(mt', body[o].slots), v);
        BarrierT(o, v);
      } else {
        Store(o, Userdata(mt', body[o].env), v);
        Barrier(o, v);
      }
    }

    // The default case of lua_setmetatable: no barrier, the atomic phase marks these again.
    method SetBasicMetatable(i: nat, mt': Option<Id>)
      requires Valid() && i < |mt| && (mt'.Some? ==> Live(H(), mt'.value))
      modifies this`mt
      ensures Valid() && mt == old(mt)[i := mt']
    {
      MtKeeps(H(), i, mt', hash);
      mt := mt[i := mt'];
    }

    // lua_setfenv
    method SetEnv(o: Id, env: Id)
      requires Valid() && o in body && (body[o].LuaFunction? || body[o].CFunction? || body[o].Userdata?)
      requires Live(H(), o) && Live(H(), env)
      modifies this`body, this`marked, this`gray, this`grayagain
      ensures Valid() && body == old(body)[o :=
        match old(body[o]) case LuaFunction(_, p, us) => LuaFunction(env, p, us)
        case CFunction(_, vs) => CFunction(env, vs)
                           case Userdata(m, _) => Userdata(m, env)]
    {
      hide InvBut, Inv;
      match body[o] {
        case LuaFunction(_, p, us) => Store(o, LuaFunction(env, p, us), Ref(env));
        case CFunction(_, vs) => Store(o, CFunction(env, vs), Ref(env));
        case Userdata(m, _) => Store(o, Userdata(m, env), Ref(env));
      }
      Barrier(o, Ref(env));
    }

    // An upvalue of a C function.
    method SetCUpvalue(f: Id, i: nat, v: Value)
      requires Valid() && f in body && body[f].CFunction? && Live(H(), f) && i < |body[f].values| && LiveValue(H(), v)
      modifies this`body, this`marked, this`gray, this`grayagain
      ensures Valid() && body == old(body)[f := CFunction(old(body[f]).env, old(body[f]).values[i := v])]
    {
      hide InvBut, Inv, LiveValue;
      var b := body[f];
      SetValueRefs(b.values, i, v);
      Store(f, CFunction(b.env, b.values[i := v]), v);
      Barrier(f, v);
    }

    // addk, luaY_parser and the like: a prototype under construction grows.
    method AddConstant(p: Id, v: Value)
      requires Valid() && p in body && body[p].Proto? && Live(H(), p) && LiveValue(H(), v)
      modifies this`body, this`marked, this`gray, this`grayagain
      ensures Valid() && body == old(body)[p := Proto(old(body[p]).k + [v], old(body[p]).protos, old(body[p]).names)]
    {
      hide InvBut, Inv, LiveValue;
      var b := body[p];
      NamesOf(H(), p, hash);
      MoreValueRefs(b.k, v);
      Store(p, Proto(b.k + [v], b.protos, b.names), v);
      Barrier(p, v);
    }

    method AddProto(p: Id, q: Id)
      requires Valid() && p in body && body[p].Proto? && Live(H(), p) && Live(H(), q)
      modifies this`body, this`marked, this`gray, this`grayagain
      ensures Valid() && body == old(body)[p := Proto(old(body[p]).k, old(body[p]).protos + [q], old(body[p]).names)]
    {
      hide InvBut, Inv;
      var b := body[p];
      NamesOf(H(), p, hash);
      MoreIdRefs(b.protos, q);
      Store(p, Proto(b.k, b.protos + [q], b.names), Ref(q));
      Barrier(p, Ref(q));
    }

    method AddName(p: Id, s: Id)
      requires Valid() && p in body && body[p].Proto? && Live(H(), p) && Live(H(), s) && body[s].Str?
      modifies this`body, this`marked, this`gray, this`grayagain
      ensures Valid() && body == old(body)[p := Proto(old(body[p]).k, old(body[p]).protos, old(body[p]).names + [s])]
    {
      hide InvBut, Inv;
      var b := body[p];
      NamesOf(H(), p, hash);
      MoreIdRefs(b.names, s);
      Store(p, Proto(b.k, b.protos, b.names + [s]), Ref(s));
      Barrier(p, Ref(s));
    }

    // ----- the running thread's stack -----

    ghost predicate ThreadOk(th: Id)
      reads this
    {
      th in body && body[th].Thread?
    }

    // setobj2s: a live slot is written, without a barrier; the upvalue open on it reads the
    // new value, every other one what it did.
    method SetStack(i: nat, v: Value)
      requires Valid() && ThreadOk(running) && i < body[running].top && LiveValue(H(), v)
      modifies this`body
      ensures Valid() && i < |old(body[running]).stack|
      ensures body == old(body)[running := old(body[running]).(stack := old(body[running]).stack[i := v])]
      ensures forall u :: u in body && body[u].UpVal? ==>
                UpvalValue(body, body[u].cell) ==
                if body[u].cell == GCHeap.Open(running, i) then v else UpvalValue(old(body), body[u].cell)
    {
      hide Inv;
      StackFacts(H(), running, hash);
      var b := body[running];
      StackKeeps(H(), running, b.(stack := b.stack[i := v]), hash);
      SlotShared(body, running, i, v);
      body := body[running := b.(stack := b.stack[i := v])];
    }

    // A value on top of the stack, which grows if it must.
    method Push(v: Value)
      requires Valid() && ThreadOk(running) && LiveValue(H(), v)
      modifies this`body
      ensures Valid() && old(body[running]).top <= |old(body[running]).stack|
      ensures body == old(body)[running := Pushed(old(body[running]), v)]
    {
      hide Inv;
      StackFacts(H(), running, hash);
      var b := body[running];
      StackKeeps(H(), running, Pushed(b, v), hash);
      body := body[running := Pushed(b, v)];
    }

    // lua_settop and the like.  What comes into view above was written since the last
    // collection, or cleared by it; frames close their upvalues before they are popped.
    method SetTop(n: nat)
      requires Valid() && ThreadOk(running) && n <= |body[running].stack|
      requires forall u :: u in body[running].openupval && u in body && IsOpen(body[u]) ==> body[u].cell.level < n
      modifies this`body
      ensures Valid() && body == old(body)[running := old(body[running]).(top := n)]
    {
      StackFacts(H(), running, hash);
      var b := body[running];
      StackKeeps(H(), running, b.(top := n), hash);
      body := body[running := b.(top := n)];
    }

    // The table of globals of a thread.
    method SetGlobals(th: Id, g: Value)
      requires Valid() && ThreadOk(th) && LiveValue(H(), g)
      modifies this`body
      ensures Valid() && body == old(body)[th := old(body[th]).(gt := g)]
    {
      StackFacts(H(), th, hash);
      var b := body[th];
      StackKeeps(H(), th, b.(gt := g), hash);
      body := body[th := b.(gt := g)];
    }

    // OP_SETUPVAL: wherever the upvalue's value lives.
    method SetUpval(u: Id, v: Value)
      requires Valid() && u in body && body[u].UpVal? && Live(H(), u) && LiveValue(H(), v)
      modifies this`body, this`marked, this`gray, this`grayagain
      ensures Valid() && u in body && body[u].UpVal? && UpvalValue(body, body[u].cell) == v
      ensures old(body)[u].cell.Closed? ==> body == old(body)[u := UpVal(Closed(v))]
      ensures old(body)[u].cell.Open? ==>
        var th, level := old(body)[u].cell.th, old(body)[u].cell.level;
        th in old(body) && old(body)[th].Thread? && level < |old(body)[th].stack| &&
        body == old(body)[th := old(body)[th].(stack := old(body)[th].stack[level := v])]
    {
      hide InvBut, Inv;
      if body[u].cell.Open? {
        var th, level := body[u].cell.th, body[u].cell.level;
        OpenSlot(H(), u, hash);
        StackFacts(H(), th, hash);
        var b := body[th];
        SlotWrite(H(), b, level, v);
        StackKeeps(H(), th, b.(stack := b.stack[level := v]), hash);
        body := body[th := b.(stack := b.stack[level := v])];
      } else {
        Store(u, UpVal(Closed(v)), v);
        Barrier(u, v);
      }
    }

    // Another coroutine runs.
    method Switch(th: Id)
      requires Valid() && ThreadOk(th) && Live(H(), th)
      modifies this`running
      ensures Valid() && running == th
    {
      SwitchKeeps(H(), th, hash);
      running := th;
    }

    // ----- new objects, left on top of the stack -----

    // luaC_link, and the reference that keeps the object
    method New(b: Body) returns (id: Id)
      requires Valid() && ThreadOk(running) && Fitting(H(), b) && !b.Userdata?
      modifies this`body, this`marked, this`brk, this`swept, this`tosweep
      ensures Valid() && id !in old(body) && id != running && Live(H(), id) && ThreadOk(running)
      ensures old(body[running]).top <= |old(body[running]).stack|
      ensures body == old(body)[id := b][running := Pushed(old(body[running]), Ref(id))]
    {
      hide Inv, Fitting;
      id := Link(b);
      Push(Ref(id));
    }

    method Link(b: Body) returns (id: Id)
      requires Valid() && ThreadOk(running) && Fitting(H(), b)
      modifies this`body, this`marked, this`brk, this`swept, this`tosweep
      ensures Valid() && id == old(brk) && id !in old(body) && body == old(body)[id := b] && Live(H(), id)
      ensures ThreadOk(running)
    {
      hide Inv, Fitting, JoinsRoot;
      ghost var h0 := H();
      FreshId(h0, hash);
      LinkFirst();
      LinkJoins(h0, H(), hash);
      ghost var h1 := H();
      id := NewWhite(b);
      Joined(h0, h1, H(), b);
      AllocKeeps(h0, H(), b, hash);
    }

    // The object itself, in the current white.
    method NewWhite(b: Body) returns (id: Id)
      modifies this`body, this`marked, this`brk
      ensures id == old(brk)
      ensures H() == old(H()).(body := old(body)[id := b], marked := old(marked)[id := White(white)], brk := id + 1)
    {
      id := brk;
      body, marked, brk := body[id := b], marked[id := White(white)], id + 1;
    }

    method LinkFirst()
      modifies this`swept, this`tosweep
      ensures H() == old(H()).(swept := swept, tosweep := tosweep)
      ensures if old(swept) == [] then swept == [] && tosweep == [brk] + old(tosweep)
              else swept == [brk] + old(swept) && tosweep == old(tosweep)
    {
      if swept == [] {
        tosweep := [brk] + tosweep;
      } else {
        swept := [brk] + swept;
      }
    }

    // luaS_newudata
    method NewUserdata(env: Id) returns (id: Id)
      requires Valid() && ThreadOk(running) && Live(H(), env)
      modifies this`body, this`marked, this`brk, this`swept, this`tosweep
      ensures Valid() && id !in old(body) && id != running && Live(H(), id) && ThreadOk(running)
      ensures old(body[running]).top <= |old(body[running]).stack|
      ensures body == old(body)[id := Userdata(None, env)][running := Pushed(old(body[running]), Ref(id))]
    {
      hide Inv;
      id := ChainUserdata(Userdata(None, env));
      Push(Ref(id));
    }

    method ChainUserdata(b: Body) returns (id: Id)
      requires Valid() && ThreadOk(running) && b.Userdata? && Fitting(H(), b)
      modifies this`body, this`marked, this`brk, this`swept, this`tosweep
      ensures Valid() && id == old(brk) && id !in old(body) && body == old(body)[id := b] && Live(H(), id)
      ensures ThreadOk(running)
    {
      hide Inv, Fitting, JoinsRoot, Owned;
      ghost var h0 := H();
      FreshId(h0, hash);
      LinkAfterMain();
      UdataJoins(h0, H(), hash);
      ghost var h1 := H();
      id := NewWhite(b);
      Joined(h0, h1, H(), b);
      AllocKeeps(h0, H(), b, hash);
    }

    method LinkAfterMain()
      modifies this`swept, this`tosweep
      ensures H() == old(H()).(swept := swept, tosweep := tosweep) && (swept, tosweep) == LinkUdata(old(H()))
    {
      if swept != [] && swept[|swept| - 1] == mainthread {
        tosweep := [brk] + tosweep;
      } else if mainthread in swept {
        swept := After(swept, mainthread, brk);
      } else {
        tosweep := After(tosweep, mainthread, brk);
      }
    }

    // luaS_newlstr: one object for one content; a dead one is revived.
    method NewString(s: string) returns (id: Id)
      requires Valid()
      modifies this`body, this`marked, this`brk, this`strt
      ensures Valid() && id in body && body[id] == Str(s) && Live(H(), id)
      ensures forall i :: i in body && body[i] == Str(s) ==> i == id
      ensures body == old(body)[id := Str(s)] && (id in old(body) ==> old(body)[id] == Str(s))
    {
      hide Inv, StringTable, Owned, Safe, PhaseInv, StringsSwept, KeysRefs, Tri, Live, OnRootList, Marked, Excused,
        NoneDead, AllRefs;
      ghost var h0 := H();
      TableFacts(h0, hash);
      var b := hash(s) % |strt|;
      var chain := strt[b];
      for n := 0 to |chain|
        invariant H() == h0 && forall k :: 0 <= k < n && chain[k] in body ==> body[chain[k]] != Str(s)
      {
        ChainFacts(h0, b, n, hash);
        if body[chain[n]] == Str(s) {
          id := chain[n];
          Revive(id);
          OnlyOne(H(), id, hash);
          return;
        }
      }
      NotThere(h0, s, hash);
      id := ChainString(s);
      OnlyOne(H(), id, hash);
    }

    // changewhite, if the object is dead
    method Revive(id: Id)
      requires Valid() && id in body && id in marked && forall r :: r in AllRefs(body, id) ==> Live(H(), r)
      modifies this`marked
      ensures Valid() && Live(H(), id)
    {
      hide Inv, AllRefs;
      if marked[id] == White(!white) {
        ReviveKeeps(H(), id, hash);
        marked := marked[id := White(white)];
      }
    }

    // newlstr
    method ChainString(s: string) returns (id: Id)
      requires Valid() && |strt| > 0 && forall i :: i in strt[Bucket(H(), s, hash)] && i in body ==> body[i] != Str(s)
      modifies this`body, this`marked, this`brk, this`strt
      ensures Valid() && id == old(brk) && id !in old(body) && body == old(body)[id := Str(s)] && Live(H(), id)
    {
      hide Inv, Owned, StringTable, Marked, NoneDead, Current, Live;
      ghost var h0 := H();
      NewStringKeeps(h0, s, hash);
      FreshId(h0, hash);
      var b := hash(s) % |strt|;
      id := brk;
      body, marked, brk := body[id := Str(s)], marked[id := White(white)], id + 1;
      strt := strt[b := [id] + strt[b]];
      assert H() == GCRevive.NewString(h0, s, hash);
    }

    // luaS_resize
    method ResizeStrings(newsize: nat)
      requires Valid() && newsize > 0
      modifies this`strt
      ensures Valid() && (gcstate == SweepString ==> strt == old(strt))
      ensures (gcstate != SweepString ==> |strt| == newsize)
    {
      hide Inv, StringTable, Owned, Safe, Rehash;
      if gcstate == SweepString {
        return;
      }
      TableFacts(H(), hash);
      StringIds(H(), hash);
      var empty: seq<seq<Id>> := seq(newsize, i => []);
      var newhash := empty;
      for n := 0 to |strt|
        invariant |newhash| == newsize && newhash == Moved(body, strt, n, empty, hash)
      {
        newhash := Rehash(body, strt[n], newhash, hash);
      }
      ResizedInv(H(), empty, hash);
      strt := newhash;
    }

    // luaF_findupval: the upvalue of a live slot of the running thread.
    method FindUpval(level: nat) returns (u: Id)
      requires Valid() && ThreadOk(running) && level < body[running].top
      modifies this`body, this`marked, this`uvhead, this`brk
      ensures Valid() && u in body && body[u] == UpVal(GCHeap.Open(running, level)) && Live(H(), u)
      ensures forall v :: v in body && body[v] == UpVal(GCHeap.Open(running, level)) ==> v == u
      ensures forall i :: i in old(body) && i != running ==> i in body && body[i] == old(body)[i]
      ensures body.Keys == old(body.Keys) + {u}
      ensures ThreadOk(running) && body[running] == old(body[running]).(openupval := body[running].openupval)
    {
      hide Inv, Place, AllRefs, LevelOf;
      ghost var h0 := H();
      StackFacts(h0, running, hash);
      var l := body[running].openupval;
      var pos := 0;
      while pos < |l| && LevelOf(body, l[pos]) >= level
        invariant 0 <= pos <= |l| && H() == h0 && forall k :: 0 <= k < pos ==> LevelOf(body, l[k]) > level
      {
        OpenMember(h0, running, pos, hash);
        if LevelOf(body, l[pos]) == level {
          u := l[pos];
          SlotLive(h0, running, u, hash);
          Revive(u);
          OnlyUpval(H(), u, hash);
          return;
        }
        pos := pos + 1;
      }
      PlaceFound(h0, running, level, pos, hash);
      u := Open(running, level, pos);
      OnlyUpval(H(), u, hash);
    }

    method Open(th: Id, level: nat, pos: nat) returns (u: Id)
      requires Valid() && ThreadOk(th) && Live(H(), th) && Place(body, body[th].openupval, level, pos)
      requires level < body[th].top <= |body[th].stack|
      modifies this`body, this`marked, this`uvhead, this`brk
      ensures Valid() && u == old(brk) && u !in old(body) && u != th && u in body
      ensures body[u] == UpVal(GCHeap.Open(th, level)) && Live(H(), u)
      ensures forall i :: i in old(body) && i != th ==> i in body && body[i] == old(body)[i]
      ensures body.Keys == old(body.Keys) + {u}
      ensures ThreadOk(th) && body[th] == old(body[th]).(openupval := body[th].openupval)
    {
      hide Inv, Place, Opened;
      ghost var h0 := H();
      OpenedKeeps(h0, th, level, pos, hash);
      PlaceIn(body, body[th].openupval, level, pos);
      FreshId(h0, hash);
      OpenedShape(h0, th, level, pos);
      u := Insert(th, level, pos);
    }

    method Insert(th: Id, level: nat, pos: nat) returns (u: Id)
      requires ThreadOk(th) && pos <= |body[th].openupval|
      modifies this`body, this`marked, this`uvhead, this`brk
      ensures u == old(brk) && H() == Opened(old(H()), th, level, pos)
    {
      u := brk;
      var b := body[th];
      body := body[th := b.(openupval := b.openupval[..pos] + [u] + b.openupval[pos..])][u :=
          UpVal(GCHeap.Open(th, level))];
      marked, uvhead, brk := marked[u := White(white)], [u] + uvhead, u + 1;
    }

    // luaF_close: the upvalues of the running thread at `level' and above.
    method Close(level: nat)
      requires Valid() && ThreadOk(running)
      modifies this`body, this`marked, this`uvhead, this`swept, this`tosweep, this`gray
      ensures Valid() && ThreadOk(running) && ClosedDown(old(H()), H(), running, level) && KeepsLive(old(H()), H())
    {
      hide Inv, Closable, Intact, Live, ClosedUpTo, ClosedFirst, ClosedDown;
      ghost var h0, n := H(), 0;
      KeepsSelf(h0);
      NoneClosed(h0, running, level, hash);
      while body[running].openupval != [] && LevelOf(body, body[running].openupval[0]) >= level
        invariant Valid() && ThreadOk(running) && running == h0.running
        invariant ClosedUpTo(h0, H(), running, n, level)
        invariant KeepsLive(h0, H()) && StaysLive(h0, H())
        decreases |body[running].openupval|
      {
        ghost var h1 := H();
        CloseOneUpvalue();
        OneMoreClosed(h0, h1, H(), running, n, level, hash);
        n := n + 1;
        KeepsFurther(h0, h1, H());
      }
      BelowAll(H(), running, level, hash);
      ClosingEnds(h0, H(), running, n, level, hash);
    }

    method CloseOneUpvalue()
      requires Valid() && ThreadOk(running) && body[running].openupval != []
      modifies this`body, this`marked, this`uvhead, this`swept, this`tosweep, this`gray
      ensures Valid() && ThreadOk(running) && ClosedFirst(old(H()), H(), running)
      ensures |body[running].openupval| < |old(body[running]).openupval|
      ensures KeepsLive(old(H()), H()) && StaysLive(old(H()), H())
    {
      hide Inv, CloseOne, DropOne, InvBut, Keep, Intact, Owned;
      ghost var h0 := H();
      var th := running;
      var u := body[th].openupval[0];
      ClosableFacts(h0, th, hash);
      if marked[u] == White(!white) {
        DropKeeps(h0, th, hash);
        DropIntact(h0, th, hash);
        Drop(th);
        DroppedLive(h0, th, hash);
        DropShape(h0, th, hash);
      } else {
        CloseShape(h0, th, hash);
        CloseBody(h0, th, hash);
        CloseIntact(h0, th, hash);
        LinkUpval(th);
      }
    }

    // Moves the value into the upvalue and links it: luaC_linkupval.
    method LinkUpval(th: Id)
      requires Valid() && Closable(H(), th) && !Dead(H(), body[th].openupval[0])
      modifies this`body, this`marked, this`uvhead, this`swept, this`tosweep, this`gray
      ensures Valid() && body == CloseOne(old(H()), th).body && StaysLive(old(H()), H())
    {
      hide Inv, CloseOne, InvBut, StaysLive, Owned;
      ghost var h0 := H();
      var u := body[th].openupval[0];
      ClosableFacts(h0, th, hash);
      if gcstate == Propagate {
        CloseBut(h0, th, hash);
        var v := UpvalValue(body, body[u].cell);
        CloseShade(th, Black);
        ShadedLive(h0, th, Black, H(), hash);
        ghost var h1 := H();
        Barrier(u, v);
        StaysTrans(h0, h1, H());
      } else {
        CloseWhiteKeeps(h0, th, hash);
        CloseShade(th, White(white));
        ShadedLive(h0, th, White(white), H(), hash);
      }
    }

    method CloseShade(th: Id, c: Color)
      requires Closable(H(), th) && Owned(H(), hash)
      modifies this`body, this`marked, this`uvhead, this`swept, this`tosweep
      ensures var h1, u := CloseOne(old(H()), th), old(body[th]).openupval[0];
              H() == (if old(marked)[u] == Gray then h1.(marked := h1.marked[u := c]) else h1)
    {
      hide CloseOne, Owned;
      CloseBody(H(), th, hash);
      var u := body[th].openupval[0];
      CloseFirst(th);
      if marked[u] == Gray {
        marked := marked[u := c];
      }
    }

    method Drop(th: Id)
      requires Valid() && th in body && body[th].Thread? && body[th].openupval != []
      modifies this`body, this`marked, this`uvhead
      ensures H() == DropOne(old(H()), th)
      ensures th in body && body[th] == old(body[th]).(openupval := old(body[th]).openupval[1..])
    {
      hide Inv, Keep;
      DropTh(H(), th, hash);
      var b := body[th];
      var u := b.openupval[0];
      body := body[th := b.(openupval := b.openupval[1..])];
      uvhead := Keep(uvhead, {u});
      body, marked := body - {u}, marked - {u};
    }
  }

  lemma StepTidies(h: Heap, h': Heap, r: set<Id>)
    requires StepRel(h, h', r)
    ensures TidiesOnly(h, h') && h'.fixed == h.fixed
  {
  }

  lemma StepReady(h0: Heap, ha: Heap, h: Heap, r: set<Id>, hash: string -> nat)
    requires Inv(h0, hash) && Inv(h, hash)
    requires h0.phase == Pause ==>
               r == ReachSet(h0) && (h == h0 || (InCycle(h0, ha, h, r) && h.phase != Pause))
    ensures h.phase == Pause || h.phase == Propagate ==>
              var marks := if h0.phase == Pause then r else h.body.Keys; ClosedSet(h.body, marks) && Roots(h) <= marks
    ensures h.phase == Propagate ==>
              var marks := if h0.phase == Pause then r else h.body.Keys; forall i :: Marked(h.marked, i) ==> i in marks
  {
    hide Inv, ClosedSet, Roots, ReachSet, InCycle, Marked;
    AllParts(h, hash);
    if h0.phase == Pause {
      if h == h0 {
        KeysOf(h0, hash);
        ReachSetClosed(h0);
      } else {
        CycleOpen(h0, ha, h, r);
      }
    }
  }

  lemma UnseenStays(h0: Heap, h1: Heap, h2: Heap, hash: string -> nat)
    requires Inv(h1, hash) && KeepsLive(h1, h2) && Unseen(h0, h1) && h2.fixed == h1.fixed
    ensures Unseen(h0, h2)
  {
    hide Inv, Intact, Reachable;
    ReachedStays(h0, h1, h2, hash);
  }

  // A thread with one value more on its stack, which grows if it must.
  function Pushed(b: Body, v: Value): Body
    requires b.Thread? && b.top <= |b.stack|
  {
    b.(stack := if b.top < |b.stack| then b.stack[b.top := v] else b.stack + [v], top := b.top + 1)
  }

  // The sweep has dealt with one object of the root list: freed it, or whitened it and moved on.
  ghost predicate Handled(h: Heap, h': Heap) {
    h.tosweep != [] &&
    var o := h.tosweep[0];
    if Dead(h, o) then o !in h'.body
    else h'.swept == h.swept + [o] && h'.tosweep == h.tosweep[1..] && Current(h', o)
  }

  ghost predicate SweptInTurn(hs: seq<Heap>) {
    forall k :: 0 <= k < |hs| - 1 ==> Handled(hs[k], hs[k + 1])
  }

  lemma FirstInTurn(h: Heap)
    ensures SweptInTurn([h])
  {
  }

  lemma OneMoreInTurn(hs: seq<Heap>, h: Heap)
    requires hs != [] && SweptInTurn(hs) && Handled(hs[|hs| - 1], h)
    ensures SweptInTurn(hs + [h])
  {
    hide Handled;
  }

  // ----- what steps cost -----

  // What singlestep returns, in bytes.
  function CostOf(sizeOf: Body -> nat, h: Heap): nat {
    match h.phase
    case Propagate => if h.gray != [] && h.gray[0] in h.body then sizeOf(h.body[h.gray[0]]) else 0
    case SweepString => SWEEPCOST
    case Sweep => SWEEPMAX * SWEEPCOST
    case _ => 0
  }

  function Spent(sizeOf: Body -> nat, hs: seq<Heap>): nat {
    if hs == [] then 0 else Spent(sizeOf, hs[..|hs| - 1]) + CostOf(sizeOf, hs[|hs| - 1])
  }

  // Single steps, each nearer to the end of a cycle, none after an end or with the limit spent.
  ghost predicate Going(sizeOf: Body -> nat, hs: seq<Heap>, lim: int) {
    hs != [] && (forall k :: 0 <= k < |hs| - 1 ==> Nearer(hs[k], hs[k + 1])) &&
    forall k :: 0 < k < |hs| - 1 ==> hs[k].phase != Pause && Spent(sizeOf, hs[..k]) < lim
  }

  // One step or more, until the limit is spent or a cycle has ended.
  ghost predicate Went(sizeOf: Body -> nat, hs: seq<Heap>, lim: int) {
    |hs| > 1 && Going(sizeOf, hs, lim) &&
    (hs[|hs| - 1].phase == Pause || Spent(sizeOf, hs[..|hs| - 1]) >= lim)
  }

  lemma FirstGoing(sizeOf: Body -> nat, h: Heap, lim: int)
    ensures Going(sizeOf, [h], lim) && Spent(sizeOf, [h][..0]) == 0
  {
  }

  lemma OneMoreStep(sizeOf: Body -> nat, hs: seq<Heap>, lim: int, h: Heap)
    requires Going(sizeOf, hs, lim) && Nearer(hs[|hs| - 1], h)
    requires |hs| > 1 ==> hs[|hs| - 1].phase != Pause && Spent(sizeOf, hs[..|hs| - 1]) < lim
    ensures Going(sizeOf, hs + [h], lim)
    ensures Spent(sizeOf, (hs + [h])[..|hs|]) == Spent(sizeOf, hs[..|hs| - 1]) + CostOf(sizeOf, hs[|hs| - 1])
  {
    hide Nearer, CostOf;
    var more := hs + [h];
    assert more[..|hs|] == hs;
    forall k | 0 <= k < |more| - 1 ensures Nearer(more[k], more[k + 1]) {
      if k < |hs| - 1 { assert Nearer(hs[k], hs[k + 1]); }
    }
    forall k | 0 < k < |more| - 1 ensures more[k].phase != Pause && Spent(sizeOf, more[..k]) < lim {
      assert more[..k] == hs[..k];
    }
  }

  // Marking changes no object but by tidying it.
  ghost predicate TidiesOnly(h: Heap, h': Heap) {
    h'.phase == Propagate ==>
      if h.phase == Pause then h'.body == h.body else h.phase == Propagate && Tidied(h.body, h'.body)
  }

  ghost predicate OnlyTidied(hs: seq<Heap>) {
    hs != [] && forall k :: 0 <= k < |hs| && hs[k].phase == Propagate ==>
      Tidied(hs[0].body, hs[k].body) && (k > 0 ==> hs[0].phase == Pause || hs[0].phase == Propagate)
  }

  lemma FirstTidied(h: Heap)
    ensures OnlyTidied([h])
  {
    TidiedRefl(h.body);
  }

  lemma OneMoreTidied(hs: seq<Heap>, h: Heap)
    requires OnlyTidied(hs) && TidiesOnly(hs[|hs| - 1], h) && (|hs| > 1 ==> hs[|hs| - 1].phase != Pause)
    ensures OnlyTidied(hs + [h])
  {
    hide Tidied;
    if h.phase == Propagate {
      var last := hs[|hs| - 1];
      TidiedRefl(h.body);
      if last.phase == Propagate { TidiedTrans(hs[0].body, last.body, h.body); }
    }
  }

  // More than as many steps can cost as there are to the end of a cycle.
  ghost predicate Enough(sizeOf: Body -> nat, h: Heap, lim: int) {
    exists most: nat :: AtMost(sizeOf, h, most) && lim > most * StepsToPause(h)
  }

  ghost predicate AtMost(sizeOf: Body -> nat, h: Heap, most: nat) {
    most >= SWEEPMAX * SWEEPCOST &&
    forall i :: i in h.body ==> sizeOf(h.body[i]) <= most && sizeOf(TidyBody(h.body[i])) <= most
  }

  lemma CostAtMost(sizeOf: Body -> nat, h0: Heap, h: Heap, most: nat)
    requires AtMost(sizeOf, h0, most) && (h.phase == Propagate ==> Tidied(h0.body, h.body))
    ensures CostOf(sizeOf, h) <= most
  {
    hide TidyBody;
    if h.phase == Propagate && h.gray != [] && h.gray[0] in h.body {
      var o := h.gray[0];
      assert h.body[o] == h0.body[o] || h.body[o] == TidyBody(h0.body[o]);
    }
  }

  lemma EnoughForAll(sizeOf: Body -> nat, hs: seq<Heap>, lim: int)
    requires Went(sizeOf, hs, lim) && OnlyTidied(hs)
    ensures Enough(sizeOf, hs[0], lim) ==> hs[|hs| - 1].phase == Pause
  {
    hide Went, StepsToPause, Tidied, AtMost, CostOf;
    if Enough(sizeOf, hs[0], lim) {
      var most: nat :| AtMost(sizeOf, hs[0], most) && lim > most * StepsToPause(hs[0]);
      forall k | 0 <= k < |hs| ensures CostOf(sizeOf, hs[k]) <= most {
        CostAtMost(sizeOf, hs[0], hs[k], most);
      }
      EnoughEnds(sizeOf, hs, lim, most);
    }
  }

  // The most steps there can be before a cycle ends.
  ghost function StepsToPause(h: Heap): nat {
    if h.phase == Pause then CycleSteps(h) + 1 else Remaining(h)
  }

  // With a limit above what so many steps can cost, a cycle ends.
  lemma EnoughEnds(sizeOf: Body -> nat, hs: seq<Heap>, lim: int, most: nat)
    requires Went(sizeOf, hs, lim) && forall k :: 0 <= k < |hs| ==> CostOf(sizeOf, hs[k]) <= most
    requires lim > most * StepsToPause(hs[0])
    ensures hs[|hs| - 1].phase == Pause
  {
    var n := |hs| - 1;
    StepsBounded(sizeOf, hs, lim, n);
    SpentBounded(sizeOf, hs[..n], most);
    MostTimes(most, n, StepsToPause(hs[0]));
  }

  lemma {:induction false} StepsBounded(sizeOf: Body -> nat, hs: seq<Heap>, lim: int, k: nat)
    requires Going(sizeOf, hs, lim) && 0 < k < |hs|
    ensures Remaining(hs[k]) + k <= StepsToPause(hs[0])
    decreases k
  {
    hide Remaining, CycleSteps;
    assert Nearer(hs[k - 1], hs[k - 1 + 1]);
    if k > 1 {
      StepsBounded(sizeOf, hs, lim, k - 1);
    }
  }

  lemma {:induction false} SpentBounded(sizeOf: Body -> nat, hs: seq<Heap>, most: nat)
    requires forall k :: 0 <= k < |hs| ==> CostOf(sizeOf, hs[k]) <= most
    ensures Spent(sizeOf, hs) <= most * |hs|
    decreases |hs|
  {
    if hs != [] {
      SpentBounded(sizeOf, hs[..|hs| - 1], most);
      assert most * |hs| == most * (|hs| - 1) + most;
    }
  }

  lemma MostTimes(most: nat, a: nat, b: nat)
    requires a <= b
    ensures most * a <= most * b
  {
  }

  lemma GrayThere(h: Heap, hash: string -> nat)
    requires Inv(h, hash) && h.phase == Propagate && h.gray != []
    ensures h.gray[0] in h.body
  {
    PropagateParts(h, hash);
    GrayOne(h.body, h.marked, h.gray, h.grayagain, Ids(h.uvhead) + Ids(h.grayagain));
  }

  // An upvalue open on a slot shares it.
  lemma SlotShared(body: Bodies, th: Id, i: nat, v: Value)
    requires th in body && body[th].Thread? && i < |body[th].stack|
    ensures var body' := body[th := body[th].(stack := body[th].stack[i := v])];
            forall u :: u in body' && body'[u].UpVal? ==>
              UpvalValue(body', body'[u].cell) ==
              if body'[u].cell == GCHeap.Open(th, i) then v else UpvalValue(body, body'[u].cell)
  {
  }

  // Closing upvalues: the ones at `level' and above leave the list of the thread and take
  // the values of their slots, and nothing else changes.
  ghost predicate ClosedDown(h: Heap, h': Heap, th: Id, level: nat) {
    th in h.body && h.body[th].Thread? && th in h'.body && h'.body[th].Thread? &&
    var l, l' := h.body[th].openupval, h'.body[th].openupval;
    && h'.body[th] == h.body[th].(openupval := l') && |l'| <= |l| && l' == l[|l| - |l'|..]
    && (forall u :: u in l ==> (u in l' <==> LevelOf(h.body, u) < level))
    && (forall i :: i in h'.body ==> i in h.body)
    && (forall i {:trigger h'.body[i]} {:trigger h.body[i]} :: i in h.body && i != th && (i in l ==> i in l') ==>
          i in h'.body && h'.body[i] == h.body[i])
    && forall u :: u in l && u !in l' ==> TookValue(h, h', u)
  }

  // Unless it was dead, the upvalue is closed now, with the value it had.
  ghost predicate TookValue(h: Heap, h': Heap, u: Id) {
    u in h.body && h.body[u].UpVal? && (!Dead(h, u) ==> u in h'.body) &&
    (u in h'.body ==> h'.body[u] == UpVal(Closed(UpvalValue(h.body, h.body[u].cell))))
  }

  ghost predicate ClosedFirst(h: Heap, h': Heap, th: Id) {
    th in h.body && h.body[th].Thread? && h.body[th].openupval != [] && th in h'.body &&
    var u := h.body[th].openupval[0];
    && h'.body[th] == h.body[th].(openupval := h.body[th].openupval[1..]) && u != th
    && (forall i :: i in h'.body ==> i in h.body)
    && (forall i {:trigger h'.body[i]} {:trigger h.body[i]} :: i in h.body && i != th && i != u ==>
          i in h'.body && h'.body[i] == h.body[i])
    && TookValue(h, h', u)
  }

  // The first n are closed.
  ghost predicate ClosedUpTo(h: Heap, h': Heap, th: Id, n: nat, level: nat) {
    th in h.body && h.body[th].Thread? && th in h'.body && n <= |h.body[th].openupval| &&
    var l := h.body[th].openupval;
    && h'.body[th] == h.body[th].(openupval := l[n..]) && th !in l
    && (forall k :: 0 <= k < n ==> LevelOf(h.body, l[k]) >= level)
    && (forall i :: i in h'.body ==> i in h.body)
    && (forall i {:trigger h'.body[i]} {:trigger h.body[i]} :: i in h.body && i != th && i !in l[..n] ==>
          i in h'.body && h'.body[i] == h.body[i])
    && forall k :: 0 <= k < n ==> TookValue(h, h', l[k])
  }

  lemma NoneClosed(h: Heap, th: Id, level: nat, hash: string -> nat)
    requires Inv(h, hash) && th in h.body && h.body[th].Thread?
    ensures ClosedUpTo(h, h, th, 0, level)
  {
    ThreadList(h, th, hash);
  }

  lemma OneMoreClosed(h0: Heap, h1: Heap, h2: Heap, th: Id, n: nat, level: nat, hash: string -> nat)
    requires Inv(h0, hash) && ClosedUpTo(h0, h1, th, n, level) && ClosedFirst(h1, h2, th) && StaysLive(h0, h1)
    requires LevelOf(h1.body, h1.body[th].openupval[0]) >= level
    ensures ClosedUpTo(h0, h2, th, n + 1, level)
  {
    hide Inv, Live, TookValue, StaysLive;
    var l := h0.body[th].openupval;
    var u := l[n];
    ListDistinct(h0, th, hash);
    assert h1.body[th].openupval[0] == u && l[n..][1..] == l[n + 1..];
    OpenMember(h0, th, n, hash);
    assert u in l && u !in l[..n] && h1.body[u] == h0.body[u];
    TookLast(h0, h1, h2, th, u);
    assert LevelOf(h1.body, u) == LevelOf(h0.body, u);
    forall i | i in h0.body && i != th && i !in l[..n + 1] ensures i in h2.body && h2.body[i] == h0.body[i] {
      assert i !in l[..n] && i != l[..n + 1][n];
    }
    forall k | 0 <= k < n + 1 ensures TookValue(h0, h2, l[k]) {
      if k < n {
        assert l[k] in l && TookValue(h0, h1, l[k]);
        TookStays(h0, h1, h2, l[k]);
      }
    }
  }

  lemma TookLast(h0: Heap, h1: Heap, h2: Heap, th: Id, u: Id)
    requires u in h0.body && u in h0.marked && IsOpen(h0.body[u]) && h0.body[u].cell.th == th
    requires th in h0.body && h0.body[th].Thread? && th in h1.body && h1.body[th].Thread?
    requires h1.body[th].stack == h0.body[th].stack && u in h1.body && h1.body[u] == h0.body[u]
    requires TookValue(h1, h2, u) && StaysLive(h0, h1)
    ensures TookValue(h0, h2, u)
  {
    if !Dead(h0, u) { assert Live(h0, u); }
  }

  lemma TookStays(h0: Heap, h1: Heap, h2: Heap, u: Id)
    requires TookValue(h0, h1, u) && (u in h2.body ==> u in h1.body)
    requires u in h1.body ==> u in h2.body && h2.body[u] == h1.body[u]
    ensures TookValue(h0, h2, u)
  {
  }

  lemma ListDistinct(h: Heap, th: Id, hash: string -> nat)
    requires Inv(h, hash) && th in h.body && h.body[th].Thread?
    ensures Distinct(h.body[th].openupval)
  {
    ThreadList(h, th, hash);
    LevelsOf(h.body, th);
  }

  lemma ClosingEnds(h0: Heap, h: Heap, th: Id, n: nat, level: nat, hash: string -> nat)
    requires Inv(h0, hash) && ClosedUpTo(h0, h, th, n, level)
    requires forall u :: u in h.body[th].openupval ==> LevelOf(h.body, u) < level
    ensures ClosedDown(h0, h, th, level)
  {
    hide Inv, Owned, TookValue, Live, OpenList, IsOpen, LevelOf;
    var l, l' := h0.body[th].openupval, h.body[th].openupval;
    ListDistinct(h0, th, hash);
    CutApart(l, n);
    forall u | u in l' ensures u in h.body && LevelOf(h0.body, u) < level {
      StillOpen(h0, h, th, n, level, u, hash);
    }
    forall u | u in l && u !in l' ensures TookValue(h0, h, u) && LevelOf(h0.body, u) >= level {
      var k :| 0 <= k < n && l[..n][k] == u;
      assert TookValue(h0, h, l[k]);
    }
  }

  lemma StillOpen(h0: Heap, h: Heap, th: Id, n: nat, level: nat, u: Id, hash: string -> nat)
    requires Inv(h0, hash) && ClosedUpTo(h0, h, th, n, level) && u in h.body[th].openupval
    ensures u in h.body && LevelOf(h0.body, u) == LevelOf(h.body, u)
  {
    hide Inv, TookValue, LevelOf;
    ListDistinct(h0, th, hash);
    CutApart(h0.body[th].openupval, n);
    OpenThere(h0, th, u, hash);
    assert h0.body[u] == h.body[u];
    SameLevel(h0, h, u);
  }

  lemma CutApart(l: seq<Id>, n: nat)
    requires Distinct(l) && n <= |l|
    ensures forall u :: u in l ==> (u in l[n..] <==> u !in l[..n])
    ensures forall u :: u in l[n..] ==> u in l
    ensures l[n..] == l[|l| - |l[n..]|..]
  {
    assert l == l[..n] + l[n..];
    forall u | u in l[n..] ensures u in l && u !in l[..n] {
      var k :| 0 <= k < |l[n..]| && l[n..][k] == u;
      assert l[n + k] == u;
    }
  }

  lemma OpenThere(h: Heap, th: Id, u: Id, hash: string -> nat)
    requires Inv(h, hash) && th in h.body && h.body[th].Thread? && u in h.body[th].openupval
    ensures u in h.body && u != th
  {
    hide OpenList, Inv;
    OwnedOf(h, hash);
    hide Owned;
    ThreadList(h, th, hash);
  }

  lemma SameLevel(h: Heap, h': Heap, u: Id)
    requires u in h.body && u in h'.body && h.body[u] == h'.body[u]
    ensures LevelOf(h.body, u) == LevelOf(h'.body, u)
  {
  }

  lemma KeepsSelf(h: Heap)
    ensures KeepsLive(h, h) && StaysLive(h, h)
  {
    forall i | i in h.body ensures Intact(h.body, h.body, i) {
      if h.body[i].Table? { SlotsAgreeSelf(h.body[i].slots); }
    }
  }

  lemma KeepsFurther(h0: Heap, h1: Heap, h2: Heap)
    requires KeepsLive(h0, h1) && StaysLive(h0, h1) && KeepsLive(h1, h2) && StaysLive(h1, h2)
    ensures KeepsLive(h0, h2) && StaysLive(h0, h2)
  {
    forall i | i in h0.body && Live(h0, i) ensures Intact(h0.body, h2.body, i) {
      assert Live(h1, i);
      IntactTrans(h0.body, h1.body, h2.body, i);
    }
  }

  lemma StaysTrans(h0: Heap, h1: Heap, h2: Heap)
    requires StaysLive(h0, h1) && StaysLive(h1, h2)
    ensures StaysLive(h0, h2)
  {
  }

  lemma ShadedLive(h: Heap, th: Id, c: Color, h': Heap, hash: string -> nat)
    requires Owned(h, hash) && Closable(h, th) && (c == Black || c == White(h.white))
    requires var h1, u := CloseOne(h, th), h.body[th].openupval[0];
             h' == if h.marked[u] == Gray then h1.(marked := h1.marked[u := c]) else h1
    ensures StaysLive(h, h')
  {
    hide Owned, Keep, UpvalValue;
  }

  lemma DroppedLive(h: Heap, th: Id, hash: string -> nat)
    requires Owned(h, hash) && Closable(h, th) && Dead(h, h.body[th].openupval[0])
    ensures StaysLive(h, DropOne(h, th))
  {
  }

  lemma Members(body: Bodies, marked: Colors, gray: seq<Id>, grayagain: seq<Id>, x: set<Id>, r: set<Id>, o: Id)
    requires Tri(body, marked, gray, grayagain, x) && ClosedSet(body, r) && o in r
    ensures o in body && body.Keys == marked.Keys && Refs(body, o) <= r
  {
    forall q | q in Refs(body, o) ensures q in r {
    }
  }

  lemma FewerWhites(marked: Colors, o: Id, c: Color, r: set<Id>)
    requires o in marked && marked[o].White? && o in r && !c.White?
    ensures Whites(marked[o := c]) < Whites(marked) && Grew(marked, marked[o := c], r)
  {
    assert o in Whites(marked) && o !in Whites(marked[o := c]);
    forall i | i in Whites(marked[o := c]) ensures i in Whites(marked) {
    }
  }

  lemma MoreMarked(m0: Colors, m1: Colors, r: set<Id>)
    requires Grew(m0, m1, r)
    ensures Whites(m1) <= Whites(m0)
  {
    GrewMarks(m0, m1, r);
  }

  lemma GrewRefl(m: Colors, r: set<Id>)
    ensures Grew(m, m, r)
  {
  }

  lemma GrewWider(m0: Colors, m1: Colors, s: set<Id>, r: set<Id>)
    requires Grew(m0, m1, s) && s <= r
    ensures Grew(m0, m1, r)
  {
  }

  lemma SlotIn(slots: seq<Slot>, i: nat)
    requires i < |slots|
    ensures SlotRefs(slots[i]) <= SlotsRefs(slots)
  {
  }

  lemma Names(body: Bodies, marked: Colors, gray: seq<Id>, grayagain: seq<Id>, x: set<Id>, r: set<Id>, o: Id)
    requires Tri(body, marked, gray, grayagain, x) && ClosedSet(body, r) && o in r && o in body && body[o].Proto?
    ensures forall n :: n in body[o].names ==> n in body && body[n].Str?
  {
    forall n | n in body[o].names ensures n in body && body[n].Str? {
      assert n in IdsRefs(body[o].names);
      assert n in Refs(body, o);
    }
  }

  lemma ClosedStays(body: Bodies, body': Bodies, r: set<Id>)
    requires ClosedSet(body, r) && body'.Keys == body.Keys && forall i :: i in body ==> Refs(body', i) == Refs(body, i)
    ensures ClosedSet(body', r)
  {
  }

  lemma GrayOne(body: Bodies, marked: Colors, gray: seq<Id>, grayagain: seq<Id>, x: set<Id>)
    requires Tri(body, marked, gray, grayagain, x) && gray != []
    ensures gray[0] in body && Listable(body[gray[0]]) && Marked(marked, gray[0])
  {
    assert gray[0] in gray;
  }

  lemma TidiedRefl(body: Bodies)
    ensures Tidied(body, body)
  {
  }

  lemma TidyOne(body: Bodies, o: Id)
    requires o in body
    ensures Tidied(body, body[o := TidyBody(body[o])])
  {
  }

  lemma TopOf(body: Bodies, o: Id)
    requires Tops(body) && o in body && body[o].Thread?
    ensures body[o].top <= |body[o].stack|
  {
  }

  lemma TraversedMarks(m0: Colors, m1: Colors, o: Id, r: set<Id>)
    requires o in m0 && !m0[o].White? && (Grew(m0, m1, r) || Grew(m0[o := Black], m1, r))
    ensures o in m1 && Marked(m1, o) && Grew(m0[o := m1[o]], m1, r) && (Grew(m0[o := Black], m1, r) ==> m1[o] == Black)
  {
  }

  lemma OffTheList(body: Bodies, marked: Colors, gray: seq<Id>, grayagain: seq<Id>, x: set<Id>, o: Id)
    requires Tri(body, marked, gray, grayagain, x) && o in body && (o in grayagain || marked[o] == Black)
    ensures o !in gray
  {
  }

  lemma BlackenedAdvanced(m0: Colors, m1: Colors, o: Id, r: set<Id>)
    requires o in m0 && !m0[o].White? && o in m1 && Marked(m1, o) && Grew(m0[o := m1[o]], m1, r)
    ensures Advanced(m0, m1, r)
  {
  }

  lemma SweepNone(h: Heap)
    ensures var d := DeadIn(h, []);
            d == {} && Keep([], d) == [] && Keep(h.uvhead, d) == h.uvhead && h.body - d == h.body
    ensures Whitened(h.marked - DeadIn(h, []), [], h.white) == h.marked
  {
    KeepAll(h.uvhead, {});
  }

  lemma Prefix(l: seq<Id>, n: nat)
    requires Distinct(l) && n <= |l|
    ensures Distinct(l[..n])
  {
  }

  lemma NotBefore(l: seq<Id>, n: nat)
    requires Distinct(l) && n < |l|
    ensures l[n] !in l[..n]
  {
  }

  lemma SweepStringParts(h: Heap, hash: string -> nat)
    requires Inv(h, hash) && h.phase == SweepString
    ensures h.sweepstr < |h.strt| && Distinct(h.strt[h.sweepstr]) && h.body.Keys == h.marked.Keys
    ensures forall i :: i in h.strt[h.sweepstr] ==> i in h.body && i in h.marked && i !in h.uvhead
    ensures forall u :: u in h.uvhead ==> u in h.body && IsOpen(h.body[u])
    ensures forall i :: i in h.uvhead ==> i !in DeadIn(h, h.strt[h.sweepstr])
  {
    UvParts(h, hash);
    BucketStrings(h, h.sweepstr, hash);
    BucketDistinct(h.body, h.strt, hash, h.sweepstr);
  }

  lemma SweptString(h: Heap, hash: string -> nat)
    requires Inv(h, hash) && h.phase == SweepString
    ensures h.sweepstr < |h.strt|
    ensures Inv(SweepStringStep(h), hash) && KeepsLive(h, SweepStringStep(h)) && Fades(h, SweepStringStep(h))
    ensures Keep(h.uvhead, DeadIn(h, h.strt[h.sweepstr])) == h.uvhead
  {
    hide Inv, Keep, Whitened, KeepsLive, Fades;
    SweepStringParts(h, hash);
    SweepStringKeeps(h, hash);
    SweptFades(h, SweepStringStep(h), DeadIn(h, h.strt[h.sweepstr]));
    KeepAll(h.uvhead, DeadIn(h, h.strt[h.sweepstr]));
  }

  lemma SweepOpenParts(h: Heap, th: Id, hash: string -> nat)
    requires Owned(h, hash) && th in h.body && h.body[th].Thread?
    ensures h.body.Keys == h.marked.Keys && Distinct(h.body[th].openupval)
    ensures forall u :: u in h.body[th].openupval ==> u in h.body && u in h.marked && u != th
    ensures forall u :: u in h.uvhead ==> u in h.body && IsOpen(h.body[u])
    ensures th !in DeadIn(h, h.body[th].openupval)
  {
    UvParts(h, hash);
    ThreadList(h, th, hash);
    LevelsOf(h.body, th);
  }

  lemma CloseCount(h: Heap, th: Id)
    requires th in h.body && h.body[th].Thread? && h.body[th].openupval != [] && h.body[th].openupval[0] in h.body
    requires h.body[h.body[th].openupval[0]].UpVal? && h.body[th].openupval[0] in h.uvhead
    ensures var h' := CloseOne(h, th); |h'.tosweep| + |h'.uvhead| <= |h.tosweep| + |h.uvhead|
    ensures forall o :: o in CloseOne(h, th).tosweep ==> o in h.tosweep || o == h.body[th].openupval[0]
  {
    KeepShorter(h.uvhead, {h.body[th].openupval[0]});
  }

  lemma FreedFades(h: Heap, o: Id, hash: string -> nat)
    requires Owned(h, hash) && Dead(h, o) && o in h.body && o in h.tosweep
    ensures Fades(h, Freed(h, o))
  {
    hide StringTable;
    SweptIds(h, hash);
  }

  lemma WhitenFades(h: Heap)
    requires h.tosweep != [] && !Dead(h, h.tosweep[0])
    ensures Fades(h, Whiten(h))
  {
  }

  lemma FadesRefl(h: Heap)
    ensures Fades(h, h) && KeepsLive(h, h)
  {
  }

  lemma FewerOpen(h: Heap, th: Id)
    requires th in h.body && h.body[th].Thread?
    ensures var h' := SweepUpvals(h, th);
            h'.swept == h.swept && h'.tosweep == h.tosweep && |h'.uvhead| <= |h.uvhead| && th in h'.body
  {
    KeepShorter(h.uvhead, DeadIn(h, h.body[th].openupval));
  }

  lemma SweepParts(h: Heap, hash: string -> nat)
    requires Inv(h, hash) && h.phase == Sweep
    ensures Owned(h, hash) && Safe(h) && SweepColors(h)
  {
  }

  lemma SweepEnds(h0: Heap, h: Heap, h': Heap, hash: string -> nat)
    requires Owned(h, hash) && Safe(h) && SweepColors(h) && KeepsLive(h0, h) && Fades(h0, h) && h.phase == Sweep
    requires h' == h.(phase := h'.phase)
    requires (h'.phase == Sweep || (h'.phase == Finalize && forall i :: i in h.marked ==> Current(h, i)))
    ensures Inv(h', hash) && KeepsLive(h0, h') && Fades(h0, h')
  {
    OtherState(h, h', hash);
    SameColors(h, h', |h.strt|);
    assert RootsSwept(h') by {
      forall i | i in h'.swept ensures Current(h', i) {
        assert Current(h, i);
      }
      forall i, u | i in h'.swept && i in h'.body && h'.body[i].Thread? && u in h'.body[i].openupval
        ensures Current(h', u)
      {
        assert Current(h, u);
      }
    }
  }

  lemma PauseParts(h: Heap, hash: string -> nat)
    requires Inv(h, hash) && (h.phase == Pause || h.phase == Finalize)
    ensures Owned(h, hash) && Safe(h) && forall i :: i in h.marked ==> Current(h, i)
  {
  }

  lemma StartKeeps(h: Heap, h': Heap, hash: string -> nat)
    requires Owned(h, hash) && Marking(h, h')
    ensures KeepsLive(h, h')
  {
    MarkingKeeps(h, h', hash);
  }

  lemma EndKeeps(h: Heap, h': Heap, hash: string -> nat)
    requires Inv(h, hash) && h.phase == Finalize && h' == h.(phase := Pause)
    ensures Inv(h', hash) && KeepsLive(h, h') && Fades(h, h') && Nearer(h, h')
  {
    OtherState(h, h', hash);
    FadesRefl(h);
  }

  lemma NothingYet(h: Heap, hash: string -> nat)
    requires Inv(h, hash)
    ensures Unseen(h, h)
  {
    forall i | Reachable(h, i) ensures i in h.body && Intact(h.body, h.body, i) {
      ReachableLive(h, i);
    }
  }

  // Between steps every allocated object may serve as the closed set of the next one.
  lemma AllParts(h: Heap, hash: string -> nat)
    requires Inv(h, hash)
    ensures h.phase == Pause || h.phase == Propagate ==> ClosedSet(h.body, h.body.Keys) && Roots(h) <= h.body.Keys
    ensures forall i :: Marked(h.marked, i) ==> i in h.body.Keys
  {
    if h.phase == Pause || h.phase == Propagate {
      assert NoneDead(h) by {
        forall i | i in h.marked ensures h.marked[i] != White(!h.white) {
          if h.phase == Pause { assert Current(h, i); }
        }
      }
      AllClosed(h, hash);
    }
  }

  lemma ReachedStays(h0: Heap, h1: Heap, h2: Heap, hash: string -> nat)
    requires Inv(h1, hash) && KeepsLive(h1, h2)
    requires forall i :: Reachable(h0, i) ==> i in h0.body && Intact(h0.body, h1.body, i) && Reachable(h1, i)
    ensures forall i :: Reachable(h0, i) ==> i in h0.body && Intact(h0.body, h2.body, i) && Reachable(h2, i)
  {
    SameReach(h1, h2);
    forall i | Reachable(h0, i) ensures i in h0.body && Intact(h0.body, h2.body, i) {
      ReachableLive(h1, i);
      assert Intact(h0.body, h1.body, i);
      assert Intact(h1.body, h2.body, i);
    }
  }

  lemma ButParts(h: Heap, o: Id, v: Value, hash: string -> nat)
    requires InvBut(h, o, v, hash)
    ensures o in h.body && o in h.marked && h.body.Keys == h.marked.Keys
    ensures forall i :: i in ValueRefs(v) ==> i in h.marked
  {
    KeysAre(h, hash);
    assert forall i :: i in ValueRefs(v) ==> Live(h, i);
    hide Owned, Safe, PhaseBut;
  }

  lemma KeysAre(h: Heap, hash: string -> nat)
    requires Owned(h, hash)
    ensures h.body.Keys == h.marked.Keys
  {
  }

  lemma ButTri(h: Heap, o: Id, v: Value, hash: string -> nat)
    requires InvBut(h, o, v, hash) && h.phase == Propagate
    ensures Tri(h.body, h.marked, h.gray, h.grayagain, Excused(h) + {o}) && ClosedSet(h.body, h.body.Keys)
  {
    AllClosed(h, hash);
  }

  lemma MtKeeps(h: Heap, i: nat, mt': Option<Id>, hash: string -> nat)
    requires Inv(h, hash) && i < |h.mt| && (mt'.Some? ==> Live(h, mt'.value))
    ensures Inv(h.(mt := h.mt[i := mt']), hash)
  {
    var h' := h.(mt := h.mt[i := mt']);
    forall r | r in Roots(h') ensures Live(h', r) {
      if r in MtRefs(h'.mt) {
        var k :| 0 <= k < |h'.mt| && h'.mt[k].Some? && h'.mt[k].value == r;
        if k != i { assert r in MtRefs(h.mt); }
      }
      assert r in Roots(h) || (mt'.Some? && r == mt'.value);
    }
    MtRest(h, h', hash);
  }

  lemma MtRest(h: Heap, h': Heap, hash: string -> nat)
    requires Inv(h, hash) && h' == h.(mt := h'.mt) && forall r :: r in Roots(h') ==> Live(h', r)
    ensures Inv(h', hash)
  {
    hide RootList, StringTable, OpenLists, NamesAreStrings, AllRefs, Roots, Tri;
    assert forall i :: Live(h', i) <==> Live(h, i);
    assert forall i :: Current(h', i) <==> Current(h, i);
    assert Owned(h', hash);
    assert Safe(h');
    assert Excused(h') == Excused(h);
  }

  // ----- facts the mutator's methods use -----

  lemma StackFacts(h: Heap, th: Id, hash: string -> nat)
    requires Inv(h, hash) && th in h.body && h.body[th].Thread?
    ensures h.body[th].top <= |h.body[th].stack| && h.body.Keys == h.marked.Keys
    ensures forall u :: u in h.body[th].openupval ==>
              u in h.body && IsOpen(h.body[u]) && h.body[u].cell.level < h.body[th].top
  {
    ThreadList(h, th, hash);
  }

  lemma SlotWrite(h: Heap, b: Body, level: nat, v: Value)
    requires b.Thread? && level < |b.stack| && b.top <= |b.stack| && LiveValue(h, v)
    ensures StackWrite(h, b, b.(stack := b.stack[level := v]))
  {
  }

  lemma OpenSlot(h: Heap, u: Id, hash: string -> nat)
    requires Inv(h, hash) && u in h.body && IsOpen(h.body[u])
    ensures var c := h.body[u].cell;
            c.th in h.body && h.body[c.th].Thread? && c.level < |h.body[c.th].stack| && c.th != u
  {
    OwnedLevels(h, hash);
  }

  lemma SwitchKeeps(h: Heap, th: Id, hash: string -> nat)
    requires Inv(h, hash) && th in h.body && h.body[th].Thread? && Live(h, th)
    ensures Inv(h.(running := th), hash)
  {
    var h' := h.(running := th);
    hide RootList, StringTable, OpenLists, NamesAreStrings, NamesBelow, AllRefs, Tri;
    assert forall i :: Live(h', i) <==> Live(h, i);
    assert forall i :: Current(h', i) <==> Current(h, i);
    assert Owned(h', hash);
    forall i | i in Roots(h') ensures Live(h', i) {
      assert i == th || i in Roots(h);
    }
    assert Safe(h');
    assert Excused(h') == Excused(h);
  }

  lemma FreshId(h: Heap, hash: string -> nat)
    requires Inv(h, hash)
    ensures h.brk !in h.body && h.brk !in h.marked && Owned(h, hash)
    ensures h.running in h.body
  {
    BrkNew(h, hash);
  }

  lemma TableFacts(h: Heap, hash: string -> nat)
    requires Inv(h, hash)
    ensures |h.strt| > 0 && StringTable(h.body, h.strt, hash) && Owned(h, hash) && Safe(h)
  {
  }

  lemma ChainFacts(h: Heap, b: nat, n: nat, hash: string -> nat)
    requires Owned(h, hash) && b < |h.strt| && n < |h.strt[b]|
    ensures var i := h.strt[b][n]; i in h.body && h.body[i].Str? && i in h.marked && AllRefs(h.body, i) == {}
  {
    var i := h.strt[b][n];
    assert i in h.strt[b];
    BucketStrings(h, b, hash);
  }

  lemma OnlyOne(h: Heap, id: Id, hash: string -> nat)
    requires Inv(h, hash) && id in h.body && h.body[id].Str?
    ensures forall i :: i in h.body && h.body[i] == h.body[id] ==> i == id
  {
    forall i | i in h.body && h.body[i] == h.body[id] ensures i == id {
      BucketOf(h.body, h.strt, hash, i);
      BucketOf(h.body, h.strt, hash, id);
      BucketUnique(h.body, h.strt, hash, hash(h.body[id].s) % |h.strt|, i, id);
    }
  }

  lemma NotThere(h: Heap, s: string, hash: string -> nat)
    requires |h.strt| > 0
    requires var chain := h.strt[hash(s) % |h.strt|];
             forall k :: 0 <= k < |chain| && chain[k] in h.body ==> h.body[chain[k]] != Str(s)
    ensures forall i :: i in h.strt[Bucket(h, s, hash)] && i in h.body ==> h.body[i] != Str(s)
  {
    var chain := h.strt[hash(s) % |h.strt|];
    forall i | i in chain && i in h.body ensures h.body[i] != Str(s) {
      var k :| 0 <= k < |chain| && chain[k] == i;
    }
  }

  lemma OpenMember(h: Heap, th: Id, pos: nat, hash: string -> nat)
    requires Inv(h, hash) && th in h.body && h.body[th].Thread? && pos < |h.body[th].openupval|
    ensures var u := h.body[th].openupval[pos];
            u in h.body && u in h.marked && IsOpen(h.body[u]) && h.body[u].cell.th == th &&
            LevelOf(h.body, u) == h.body[u].cell.level
  {
    ThreadList(h, th, hash);
    var u := h.body[th].openupval[pos];
    assert u in h.body[th].openupval;
  }

  lemma SlotLive(h: Heap, th: Id, u: Id, hash: string -> nat)
    requires Inv(h, hash) && th == h.running && u in h.body && IsOpen(h.body[u]) && h.body[u].cell.th == th
    ensures forall r :: r in AllRefs(h.body, u) ==> Live(h, r)
  {
    hide Owned, PhaseInv, ValueRefs;
    OwnedLevels(h, hash);
    RootsLive(h);
    hide Roots;
    var c := h.body[u].cell;
    forall r | r in AllRefs(h.body, u) ensures Live(h, r) {
      SlotIsRef(h.body, th, c.level, r);
      assert r in AllRefs(h.body, th);
    }
  }

  lemma SlotIsRef(body: Bodies, th: Id, level: nat, r: Id)
    requires th in body && body[th].Thread? && level < |body[th].stack| && r in ValueRefs(body[th].stack[level])
    ensures r in AllRefs(body, th)
  {
    assert body[th].stack[level] == Ref(r);
    assert r in ValuesRefs(body[th].stack);
  }

  lemma OnlyUpval(h: Heap, u: Id, hash: string -> nat)
    requires Inv(h, hash) && u in h.body && IsOpen(h.body[u])
    ensures forall v :: v in h.body && h.body[v] == h.body[u] ==> v == u
  {
    forall v | v in h.body && h.body[v] == h.body[u] ensures v == u {
      OneUpvalPerSlot(h, u, v, hash);
    }
  }

  lemma PlaceFound(h: Heap, th: Id, level: nat, pos: nat, hash: string -> nat)
    requires Inv(h, hash) && th in h.body && h.body[th].Thread? && th == h.running && pos <= |h.body[th].openupval|
    requires forall k :: 0 <= k < pos ==> LevelOf(h.body, h.body[th].openupval[k]) > level
    requires pos < |h.body[th].openupval| ==> LevelOf(h.body, h.body[th].openupval[pos]) < level
    ensures Place(h.body, h.body[th].openupval, level, pos) && Live(h, th)
  {
    ThreadList(h, th, hash);
    LevelsOf(h.body, th);
    RootsLive(h);
  }

  lemma BelowAll(h: Heap, th: Id, level: nat, hash: string -> nat)
    requires Inv(h, hash) && th in h.body && h.body[th].Thread?
    requires var l := h.body[th].openupval; l == [] || LevelOf(h.body, l[0]) < level
    ensures forall u :: u in h.body[th].openupval ==> LevelOf(h.body, u) < level
  {
    ThreadList(h, th, hash);
    LevelsOf(h.body, th);
    var l := h.body[th].openupval;
    forall u | u in l ensures LevelOf(h.body, u) < level {
      var k :| 0 <= k < |l| && l[k] == u;
      assert k == 0 || LevelOf(h.body, l[0]) > LevelOf(h.body, l[k]);
    }
  }

  lemma ClosableFacts(h: Heap, th: Id, hash: string -> nat)
    requires Inv(h, hash) && th in h.body && h.body[th].Thread? && h.body[th].openupval != []
    ensures Closable(h, th) && Owned(h, hash)
    ensures var u := h.body[th].openupval[0]; u in h.body && h.body[u].UpVal? && u in h.marked && u != th
  {
    FirstOpen(h, th, hash);
  }

  lemma CloseBody(h: Heap, th: Id, hash: string -> nat)
    requires Owned(h, hash) && Closable(h, th)
    ensures var h', u := CloseOne(h, th), h.body[th].openupval[0];
            u in h'.body && h'.body[u] == UpVal(Closed(UpvalValue(h.body, h.body[u].cell))) && u in h'.marked &&
            h'.marked == h.marked &&
            th in h'.body && h'.body[th] == h.body[th].(openupval := h.body[th].openupval[1..]) && h'.phase == h.phase
  {
    FirstOpen(h, th, hash);
    CloseShape(h, th, hash);
  }

  lemma DropTh(h: Heap, th: Id, hash: string -> nat)
    requires Inv(h, hash) && th in h.body && h.body[th].Thread? && h.body[th].openupval != []
    ensures h.body[th].openupval[0] != th
  {
    FirstOpen(h, th, hash);
  }

  lemma Joined(h: Heap, h1: Heap, h2: Heap, b: Body)
    requires h1 == h.(swept := h1.swept, tosweep := h1.tosweep) && JoinsRoot(h, h1, h.brk)
    requires h2 == h1.(body := h1.body[h1.brk := b], marked := h1.marked[h1.brk := White(h1.white)], brk := h1.brk + 1)
    ensures JoinsRoot(h, h2, h.brk) && Allocated(h, h2, b)
  {
  }

  lemma OpenedShape(h: Heap, th: Id, level: nat, pos: nat)
    requires th in h.body && h.body[th].Thread? && pos <= |h.body[th].openupval| && h.brk !in h.body
    ensures var h' := Opened(h, th, level, pos);
            h.brk in h'.body && h'.body[h.brk] == UpVal(GCHeap.Open(th, level)) && th in h'.body &&
            h'.body[th].Thread? &&
            h'.body[th] == h.body[th].(openupval := h'.body[th].openupval) && h'.body.Keys == h.body.Keys + {h.brk} &&
            forall i :: i in h.body && i != th ==> i in h'.body && h'.body[i] == h.body[i]
  {
  }

  lemma NewState(h: Heap, hash: string -> nat)
    requires h.body == map[0 := Thread(Ref(1), [], 0, []), 1 := Table(None, []), 2 := Table(None, [])]
    requires h.marked == map[0 := White(false), 1 := White(false), 2 := White(false)] && !h.white && h.phase == Pause
    requires h.swept == [] && h.tosweep == [2, 1, 0] && h.uvhead == [] && h.main == 0 && h.running == 0
    requires h.registry == Ref(2)
    requires h.mt == [] && h.fixed == {} && h.brk == 3 && |h.strt| > 0
    requires forall b :: 0 <= b < |h.strt| ==> h.strt[b] == []
    ensures Inv(h, hash)
  {
    hide RootList, StringTable, OpenLists, NamesAreStrings, NamesBelow, Safe;
    assert h.marked.Keys == h.body.Keys;
    NewLists(h, hash);
    NewSafe(h);
  }

  lemma NewLists(h: Heap, hash: string -> nat)
    requires h.body == map[0 := Thread(Ref(1), [], 0, []), 1 := Table(None, []), 2 := Table(None, [])]
    requires h.swept == [] && h.tosweep == [2, 1, 0] && h.uvhead == [] && h.brk == 3 && |h.strt| > 0
    requires forall b :: 0 <= b < |h.strt| ==> h.strt[b] == []
    ensures RootList(h.body, h.swept, h.tosweep) && StringTable(h.body, h.strt, hash) && OpenLists(h.body, h.uvhead)
    ensures NamesAreStrings(h.body) && NamesBelow(h.body, h.brk)
  {
    hide StringTable, RootList;
    assert OpenList(h.body, 0);
    EmptyTable(h.body, h.strt, hash);
    NewRoots(h.body);
  }

  lemma NewRoots(body: Bodies)
    requires body == map[0 := Thread(Ref(1), [], 0, []), 1 := Table(None, []), 2 := Table(None, [])]
    ensures RootList(body, [], [2, 1, 0])
  {
  }

  lemma EmptyTable(body: Bodies, strt: seq<seq<Id>>, hash: string -> nat)
    requires |strt| > 0 && (forall b :: 0 <= b < |strt| ==> strt[b] == []) && forall i :: i in body ==> !body[i].Str?
    ensures StringTable(body, strt, hash)
  {
  }

  lemma NewSafe(h: Heap)
    requires h.body == map[0 := Thread(Ref(1), [], 0, []), 1 := Table(None, []), 2 := Table(None, [])]
    requires h.marked == map[0 := White(false), 1 := White(false), 2 := White(false)] && !h.white
    requires h.main == 0 && h.running == 0 && h.registry == Ref(2) && h.mt == []
    ensures Safe(h)
  {
    assert AllRefs(h.body, 0) == {1} && AllRefs(h.body, 1) == {} && AllRefs(h.body, 2) == {};
    hide AllRefs;
    assert Live(h, 0) && Live(h, 1) && Live(h, 2);
  }
}
