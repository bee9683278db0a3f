// Collectable objects, the references between them, and what the collector keeps true
// of their colours.

module GCHeap {
  import opened Options

  type Id = int  // an address; never used twice

  // A dead key keeps an address only to be compared with.
  datatype Value = Nil | Plain(n: int) | Ref(id: Id) | DeadKey(was: Id)

  datatype Slot = Slot(key: Value, val: Value)

  // Where an upvalue's value lives: in a slot of a thread's stack, or in the upvalue.
  datatype Cell = Open(th: Id, level: nat) | Closed(v: Value)

  datatype Body =
    | Str(s: string)
    | Table(meta: Option<Id>, slots: seq<Slot>)
    | LuaFunction(env: Id, proto: Id, upvals: seq<Id>)
    | CFunction(env: Id, values: seq<Value>)
    | Proto(k: seq<Value>, protos: seq<Id>, names: seq<Id>)
    | Userdata(meta: Option<Id>, env: Id)
    | Thread(gt: Value, stack: seq<Value>, top: nat, openupval: seq<Id>)
    | UpVal(cell: Cell)

  // The white and black bits; gray is neither.
  datatype Color = White(w: bool) | Gray | Black

  type Bodies = map<Id, Body>
  type Colors = map<Id, Color>

  // ----- references -----

  function ValueRefs(v: Value): set<Id> {
    if v.Ref? then {v.id} else {}
  }

  function OptionRefs(o: Option<Id>): set<Id> {
    if o.Some? then {o.value} else {}
  }

  function ValuesRefs(vs: seq<Value>): set<Id> {
    set i | 0 <= i < |vs| && vs[i].Ref? :: vs[i].id
  }

  function IdsRefs(ids: seq<Id>): set<Id> {
    set i | 0 <= i < |ids| :: ids[i]
  }

  // An entry whose value is nil keeps nothing alive.
  function SlotRefs(s: Slot): set<Id> {
    if s.val.Nil? then {} else ValueRefs(s.key) + ValueRefs(s.val)
  }

  function SlotsRefs(slots: seq<Slot>): set<Id> {
    set i, r | 0 <= i < |slots| && r in SlotRefs(slots[i]) :: r
  }

  predicate IsOpen(b: Body) {
    b.UpVal? && b.cell.Open?
  }

  // The value an upvalue stands for.
  function UpvalValue(body: Bodies, c: Cell): Value {
    match c
    case Closed(v) => v
    case Open(th, level) =>
      if th in body && body[th].Thread? && level < |body[th].stack| then body[th].stack[level] else Nil
  }

  function LiveStack(b: Body): seq<Value>
    requires b.Thread?
  {
    if b.top <= |b.stack| then b.stack[..b.top] else b.stack
  }

  // What the mutator can get to from o.
  function Refs(body: Bodies, o: Id): set<Id>
    requires o in body
  {
    match body[o]
    case Str(_) => {}
    case Table(meta, slots) => OptionRefs(meta) + SlotsRefs(slots)
    case LuaFunction(env, proto, upvals) => {env, proto} + IdsRefs(upvals)
    case CFunction(env, values) => {env} + ValuesRefs(values)
    case Proto(k, protos, names) => ValuesRefs(k) + IdsRefs(protos) + IdsRefs(names)
    case Userdata(meta, env) => OptionRefs(meta) + {env}
    case Thread(gt, _, _, _) => ValueRefs(gt) + ValuesRefs(LiveStack(body[o]))
    case UpVal(c) => ValueRefs(UpvalValue(body, c))
  }

  function KeysRefs(slots: seq<Slot>): set<Id> {
    set i | 0 <= i < |slots| && slots[i].key.Ref? :: slots[i].key.id
  }

  // A thread's slots above its top, and the keys of a table's empty entries, hold
  // references too, until the collector clears them.
  function AllRefs(body: Bodies, o: Id): set<Id>
    requires o in body
  {
    match body[o]
    case Thread(gt, stack, _, _) => ValueRefs(gt) + ValuesRefs(stack)
    case Table(_, slots) => Refs(body, o) + KeysRefs(slots)
    case _ => Refs(body, o)
  }

  // ----- the tri-colour invariant -----

  // Objects that wait on a list to be traversed.
  predicate Listable(b: Body) {
    b.Table? || b.LuaFunction? || b.CFunction? || b.Proto? || b.Thread?
  }

  predicate Marked(marked: Colors, i: Id) {
    i in marked && !marked[i].White?
  }

  ghost predicate Distinct(s: seq<Id>) {
    forall a, b :: 0 <= a < b < |s| ==> s[a] != s[b]
  }

  // The gray lists hold exactly the gray objects that have still to be traversed.
  ghost predicate Lists(body: Bodies, marked: Colors, gray: seq<Id>, grayagain: seq<Id>) {
    && Distinct(gray) && Distinct(grayagain) && (forall i :: i in gray ==> i !in grayagain)
    && (forall i {:trigger i in gray} {:trigger i in grayagain} ::
          i in gray || i in grayagain ==> i in body && i in marked && marked[i] == Gray && Listable(body[i]))
    && forall i {:trigger body[i]} :: i in body && i in marked && marked[i] == Gray && Listable(body[i]) ==>
         i in gray || i in grayagain
  }

  // Which objects can be gray or black: userdata are never gray, and strings, threads
  // and open upvalues never black.
  ghost predicate Shades(body: Bodies, marked: Colors) {
    forall i {:trigger body[i]} {:trigger marked[i]} :: i in body && i in marked ==>
      (marked[i] == Gray ==> Listable(body[i]) || body[i].Str? || IsOpen(body[i])) &&
      (marked[i] == Black ==> !body[i].Str? && !body[i].Thread? && !IsOpen(body[i]))
  }

  ghost predicate Settled(body: Bodies, marked: Colors, o: Id)
    requires o in body
  {
    forall r :: r in AllRefs(body, o) ==> Marked(marked, r)
  }

  // A marked object refers to marked objects only, unless it is gray or excused.
  ghost predicate Cover(body: Bodies, marked: Colors, gray: seq<Id>, excused: set<Id>) {
    forall i {:trigger Settled(body, marked, i)} :: i in body && Marked(marked, i) && i !in gray && i !in excused ==>
      Settled(body, marked, i)
  }

  ghost predicate NamesAreStrings(body: Bodies) {
    forall i, n :: i in body && body[i].Proto? && n in body[i].names && n in body ==> body[n].Str?
  }

  ghost predicate Tri(body: Bodies, marked: Colors, gray: seq<Id>, grayagain: seq<Id>, excused: set<Id>) {
    && body.Keys == marked.Keys && NamesAreStrings(body)
    && Lists(body, marked, gray, grayagain) && Shades(body, marked) && Cover(body, marked, gray, excused)
  }

  // A set of objects that references do not leave.
  ghost predicate ClosedSet(body: Bodies, s: set<Id>) {
    (forall i :: i in s ==> i in body) &&
    forall i, r {:trigger r in Refs(body, i)} :: i in s && r in Refs(body, i) ==> r in s
  }

  // Marking: only white objects change, to a colour that is not white, and all of them in s.
  ghost predicate Grew(m0: Colors, m1: Colors, s: set<Id>) {
    m1.Keys == m0.Keys &&
    forall i {:trigger m1[i]} {:trigger m0[i]} :: i in m0 ==>
      m1[i] == m0[i] || (m0[i].White? && !m1[i].White? && i in s)
  }

  function Whites(marked: Colors): set<Id> {
    set i | i in marked && marked[i].White?
  }

  lemma GrewTrans(m0: Colors, m1: Colors, m2: Colors, s: set<Id>)
    requires Grew(m0, m1, s) && Grew(m1, m2, s)
    ensures Grew(m0, m2, s)
  {
  }

  lemma GrewMarks(m0: Colors, m1: Colors, s: set<Id>)
    requires Grew(m0, m1, s)
    ensures forall i :: Marked(m0, i) ==> Marked(m1, i)
    ensures Whites(m1) <= Whites(m0)
  {
    forall i | i in Whites(m1) ensures i in Whites(m0) {
      assert m1[i] == m0[i];
    }
  }

  lemma SettledGrows(body: Bodies, m0: Colors, m1: Colors, s: set<Id>, o: Id)
    requires Grew(m0, m1, s) && o in body && Settled(body, m0, o)
    ensures Settled(body, m1, o)
  {
    GrewMarks(m0, m1, s);
  }

  lemma CoverMore(body: Bodies, marked: Colors, gray: seq<Id>, grayagain: seq<Id>, x: set<Id>, x': set<Id>)
    requires Tri(body, marked, gray, grayagain, x) && x <= x'
    ensures Tri(body, marked, gray, grayagain, x')
  {
  }

  // An excused object whose references are all marked needs no excuse.
  lemma CoverDrop(body: Bodies, marked: Colors, gray: seq<Id>, grayagain: seq<Id>, x: set<Id>, o: Id)
    requires Tri(body, marked, gray, grayagain, x + {o})
    requires (o in body && Marked(marked, o) ==> Settled(body, marked, o))
    ensures Tri(body, marked, gray, grayagain, x)
  {
    forall i | i in body && Marked(marked, i) && i !in gray && i !in x ensures Settled(body, marked, i) {
      if i != o { assert i !in x + {o}; }
    }
  }

  // A white object turns gray and is put on the list.
  lemma TurnGray(body: Bodies, marked: Colors, gray: seq<Id>, grayagain: seq<Id>, x: set<Id>, o: Id)
    requires Tri(body, marked, gray, grayagain, x) && o in marked && marked[o].White? && Listable(body[o])
    ensures Tri(body, marked[o := Gray], [o] + gray, grayagain, x)
    ensures Grew(marked, marked[o := Gray], {o})
  {
    var m1, g1 := marked[o := Gray], [o] + gray;
    assert o !in gray && o !in grayagain;
    assert forall i :: i in g1 <==> i == o || i in gray;
    forall i | i in body && Marked(m1, i) && i !in g1 && i !in x ensures Settled(body, m1, i) {
      assert i != o && i !in gray;
      assert Settled(body, marked, i);
      SettledGrows(body, marked, m1, {o}, i);
    }
  }

  // A white object that is on no list turns gray or black.
  lemma TurnMarked(body: Bodies, marked: Colors, gray: seq<Id>, grayagain: seq<Id>, x: set<Id>, o: Id, c: Color)
    requires Tri(body, marked, gray, grayagain, x) && o in marked && marked[o].White? && !Listable(body[o])
    requires c == (if body[o].Str? || IsOpen(body[o]) then Gray else Black)
    ensures Tri(body, marked[o := c], gray, grayagain, x + {o})
    ensures Grew(marked, marked[o := c], {o})
  {
    var m1 := marked[o := c];
    forall i | i in body && Marked(m1, i) && i !in gray && i !in x + {o} ensures Settled(body, m1, i) {
      assert Settled(body, marked, i);
      SettledGrows(body, marked, m1, {o}, i);
    }
  }

  // The first gray object leaves the list and turns black, or for a thread moves to the other list.
  lemma TurnBlack(body: Bodies, marked: Colors, gray: seq<Id>, grayagain: seq<Id>, x: set<Id>)
    requires Tri(body, marked, gray, grayagain, x) && gray != [] && gray[0] in body && !body[gray[0]].Thread?
    ensures Tri(body, marked[gray[0] := Black], gray[1..], grayagain, x + {gray[0]})
  {
    var o, m1, g1 := gray[0], marked[gray[0] := Black], gray[1..];
    assert gray == [o] + g1 && o in gray;
    forall i | i in body && Marked(m1, i) && i !in g1 && i !in x + {o} ensures Settled(body, m1, i) {
      assert Marked(marked, i) && i !in gray;
      assert Settled(body, marked, i);
    }
    assert forall i :: i in gray <==> i == o || i in g1;
    assert o !in g1;
  }

  lemma TurnAgain(body: Bodies, marked: Colors, gray: seq<Id>, grayagain: seq<Id>, x: set<Id>)
    requires Tri(body, marked, gray, grayagain, x) && gray != []
    ensures Tri(body, marked, gray[1..], [gray[0]] + grayagain, x + {gray[0]})
  {
    var o, g1, a1 := gray[0], gray[1..], [gray[0]] + grayagain;
    assert gray == [o] + g1;
    assert forall i :: i in gray <==> i == o || i in g1;
    assert forall i :: i in a1 <==> i == o || i in grayagain;
    assert o !in g1;
    forall i | i in body && Marked(marked, i) && i !in g1 && i !in x + {o} ensures Settled(body, marked, i) {
      assert i !in gray;
    }
  }

  // Marking some string by hand.
  lemma StringMarked(body: Bodies, marked: Colors, gray: seq<Id>, grayagain: seq<Id>, x: set<Id>, o: Id)
    requires Tri(body, marked, gray, grayagain, x) && o in body && body[o].Str?
    ensures Tri(body, marked[o := Gray], gray, grayagain, x) && Grew(marked, marked[o := Gray], {o})
  {
    if marked[o].White? {
      TurnMarked(body, marked, gray, grayagain, x, o, Gray);
      CoverDrop(body, marked[o := Gray], gray, grayagain, x, o);
    } else {
      assert marked[o := Gray] == marked;
    }
  }

  // ----- the empty entries of a table -----

  // removeentry, for an entry that is empty
  function TidySlot(s: Slot): Slot {
    if s.val.Nil? && s.key.Ref? then Slot(DeadKey(s.key.id), Nil) else s
  }

  function TidySlots(slots: seq<Slot>): (t: seq<Slot>)
    ensures |t| == |slots|
  {
    seq(|slots|, i requires 0 <= i < |slots| => TidySlot(slots[i]))
  }

  lemma TidySlotsRefs(slots: seq<Slot>)
    ensures SlotsRefs(TidySlots(slots)) == SlotsRefs(slots) && KeysRefs(TidySlots(slots)) <= SlotsRefs(slots)
    ensures KeysRefs(TidySlots(slots)) <= KeysRefs(slots)
  {
    var t := TidySlots(slots);
    forall r | r in SlotsRefs(t) ensures r in SlotsRefs(slots) {
      var i :| 0 <= i < |t| && r in SlotRefs(t[i]);
      assert r in SlotRefs(slots[i]);
    }
    forall r | r in SlotsRefs(slots) ensures r in SlotsRefs(t) {
      var i :| 0 <= i < |slots| && r in SlotRefs(slots[i]);
      assert r in SlotRefs(t[i]);
    }
    forall r | r in KeysRefs(t) ensures r in SlotsRefs(slots) && r in KeysRefs(slots) {
      var i :| 0 <= i < |t| && t[i].key.Ref? && t[i].key.id == r;
      assert r in SlotRefs(slots[i]);
    }
  }

  // ----- the stack of a thread -----

  function Nils(n: nat): (s: seq<Value>)
    ensures |s| == n && forall i :: 0 <= i < n ==> s[i] == Nil
  {
    seq(n, i => Nil)
  }

  function ClearedStack(b: Body): (s: seq<Value>)
    requires b.Thread? && b.top <= |b.stack|
    ensures |s| == |b.stack|
  {
    b.stack[..b.top] + Nils(|b.stack| - b.top)
  }

  // Every open upvalue names a slot below its thread's top.
  ghost predicate OpenLevels(body: Bodies) {
    forall i {:trigger body[i]} :: i in body && IsOpen(body[i]) ==>
      var c := body[i].cell;
      c.th in body && body[c.th].Thread? && c.level < body[c.th].top <= |body[c.th].stack|
  }

  // A traversed thread or table: nothing is left that the program cannot see.
  function TidyBody(b: Body): Body {
    match b
    case Table(meta, slots) => Table(meta, TidySlots(slots))
    case Thread(gt, stack, top, l) => if top <= |stack| then Thread(gt, ClearedStack(b), top, l) else b
    case _ => b
  }

  lemma TidyTwice(b: Body)
    ensures TidyBody(TidyBody(b)) == TidyBody(b)
  {
    if b.Thread? && b.top <= |b.stack| {
      assert ClearedStack(TidyBody(b)) == ClearedStack(b);
    } else if b.Table? {
      assert TidySlots(TidySlots(b.slots)) == TidySlots(b.slots);
    }
  }

  // Between two states of the objects, some may have been tidied.
  ghost predicate Tidied(body: Bodies, body': Bodies) {
    body'.Keys == body.Keys &&
    forall i {:trigger body[i]} {:trigger body'[i]} :: i in body ==>
      (body'[i] == body[i] || body'[i] == TidyBody(body[i]))
  }

  lemma TidiedTrans(b0: Bodies, b1: Bodies, b2: Bodies)
    requires Tidied(b0, b1) && Tidied(b1, b2)
    ensures Tidied(b0, b2)
  {
    forall i | i in b0 ensures b2[i] == b0[i] || b2[i] == TidyBody(b0[i]) {
      assert b1[i] == b0[i] || b1[i] == TidyBody(b0[i]);
      assert b2[i] == b1[i] || b2[i] == TidyBody(b1[i]);
      TidyTwice(b0[i]);
    }
  }

  // Every thread's top is within its stack.
  ghost predicate Tops(body: Bodies) {
    forall i {:trigger body[i]} :: i in body && body[i].Thread? ==> body[i].top <= |body[i].stack|
  }

  lemma TidyStack(b: Body)
    requires b.Thread? && b.top <= |b.stack|
    ensures ClearedStack(b)[..b.top] == b.stack[..b.top]
    ensures ValuesRefs(ClearedStack(b)) == ValuesRefs(b.stack[..b.top])
    ensures ValuesRefs(ClearedStack(b)) <= ValuesRefs(b.stack)
  {
    var s := ClearedStack(b);
    forall r | r in ValuesRefs(s) ensures r in ValuesRefs(b.stack[..b.top]) && r in ValuesRefs(b.stack) {
      var i :| 0 <= i < |s| && s[i].Ref? && s[i].id == r;
      assert b.stack[..b.top][i] == s[i] && b.stack[i] == s[i];
    }
    forall r | r in ValuesRefs(b.stack[..b.top]) ensures r in ValuesRefs(s) {
      var i :| 0 <= i < b.top && b.stack[..b.top][i].Ref? && b.stack[..b.top][i].id == r;
      assert s[i] == b.stack[i];
    }
  }

  lemma TidiedValue(body: Bodies, body': Bodies, c: Cell)
    requires Tidied(body, body') && Tops(body)
    requires c.Open? ==> c.th in body && body[c.th].Thread? && c.level < body[c.th].top
    ensures UpvalValue(body', c) == UpvalValue(body, c)
  {
    if c.Open? {
      assert body'[c.th] == body[c.th] || body'[c.th] == TidyBody(body[c.th]);
      TidyStack(body[c.th]);
      assert body'[c.th].stack[..body[c.th].top][c.level] == body[c.th].stack[..body[c.th].top][c.level];
    }
  }

  lemma TidiedOne(body: Bodies, body': Bodies, i: Id)
    requires Tidied(body, body') && OpenLevels(body) && Tops(body) && i in body
    ensures Refs(body', i) == Refs(body, i) && AllRefs(body', i) <= AllRefs(body, i)
    ensures body'[i] == TidyBody(body[i]) ==> AllRefs(body', i) == Refs(body, i)
    ensures body'[i].Thread? == body[i].Thread? && IsOpen(body'[i]) == IsOpen(body[i])
  {
    assert body'[i] == body[i] || body'[i] == TidyBody(body[i]);
    if body[i].Thread? {
      TidyStack(body[i]);
    } else if body[i].Table? {
      TidySlotsRefs(body[i].slots);
    } else if body[i].UpVal? {
      TidiedValue(body, body', body[i].cell);
    }
  }

  lemma TidiedRefs(body: Bodies, body': Bodies)
    requires Tidied(body, body') && OpenLevels(body) && Tops(body)
    ensures forall i :: i in body ==> Refs(body', i) == Refs(body, i)
    ensures OpenLevels(body') && Tops(body')
  {
    forall i | i in body ensures Refs(body', i) == Refs(body, i) {
      TidiedOne(body, body', i);
    }
    forall i | i in body' && IsOpen(body'[i])
      ensures var c := body'[i].cell;
              c.th in body' && body'[c.th].Thread? && c.level < body'[c.th].top <= |body'[c.th].stack|
    {
      assert body'[i] == body[i];
      var c := body[i].cell;
      assert body'[c.th] == body[c.th] || body'[c.th] == TidyBody(body[c.th]);
    }
    forall i | i in body' && body'[i].Thread? ensures body'[i].top <= |body'[i].stack| {
      assert body'[i] == body[i] || body'[i] == TidyBody(body[i]);
    }
  }

  // An object whose visible references are all marked is settled by tidying it.
  lemma TidyKeepsTri(body: Bodies, marked: Colors, gray: seq<Id>, grayagain: seq<Id>, x: set<Id>, o: Id)
    requires Tri(body, marked, gray, grayagain, x + {o}) && OpenLevels(body) && Tops(body) && o in body
    requires forall r :: r in Refs(body, o) ==> Marked(marked, r)
    ensures Tri(body[o := TidyBody(body[o])], marked, gray, grayagain, x) && Tidied(body, body[o := TidyBody(body[o])])
  {
    var body' := body[o := TidyBody(body[o])];
    assert Tidied(body, body');
    assert forall i :: i in body ==>
             Listable(body'[i]) == Listable(body[i]) && body'[i].Str? == body[i].Str? &&
             IsOpen(body'[i]) == IsOpen(body[i]) && body'[i].Thread? == body[i].Thread? &&
             (body'[i].Proto? ==> body'[i] == body[i]);
    assert NamesAreStrings(body');
    hide Refs, AllRefs, Tidied;
    forall i | i in body' && Marked(marked, i) && i !in gray && i !in x ensures Settled(body', marked, i) {
      TidiedOne(body, body', i);
      if i != o {
        assert Settled(body, marked, i);
      }
    }
  }

  // What is left to traverse.
  function Untraversed(marked: Colors, gray: seq<Id>): set<Id> {
    Whites(marked) + (set i | i in gray)
  }

  lemma TraversedOne(body: Bodies, m0: Colors, g0: seq<Id>, a0: seq<Id>, x0: set<Id>,
                     body': Bodies, m1: Colors, g1: seq<Id>, a1: seq<Id>, x1: set<Id>, r: set<Id>)
    requires Tri(body, m0, g0, a0, x0) && Tri(body', m1, g1, a1, x1) && Tidied(body, body')
    requires g0 != [] && g0[0] in m1 && !m1[g0[0]].White? && g0[0] !in g1 && Grew(m0[g0[0] := m1[g0[0]]], m1, r)
    requires forall i :: i in a0 ==> i in a1
    ensures Untraversed(m1, g1) < Untraversed(m0, g0)
  {
    var o := g0[0];
    assert o in g0;
    forall i | i in Untraversed(m1, g1) ensures i in Untraversed(m0, g0) {
      if i in g1 {
        assert i != o && m1[i] == Gray && Listable(body'[i]) && i !in a1;
        assert m0[i] == m1[i] || m0[i].White?;
        assert Listable(body[i]);
      } else {
        assert m1[i].White?;
        assert m0[i] == m1[i];
      }
    }
    assert o in Untraversed(m0, g0) && o !in Untraversed(m1, g1);
  }

  // Marking that may also blacken what is gray already.
  ghost predicate Advanced(m0: Colors, m1: Colors, r: set<Id>) {
    m1.Keys == m0.Keys &&
    forall i {:trigger m1[i]} {:trigger m0[i]} :: i in m0 ==>
      (m1[i].White? ==> m1[i] == m0[i]) && (m0[i].White? && !m1[i].White? ==> i in r)
  }

  lemma GrewAdvanced(m0: Colors, m1: Colors, r: set<Id>)
    requires Grew(m0, m1, r)
    ensures Advanced(m0, m1, r)
  {
  }

  lemma AdvancedTrans(m0: Colors, m1: Colors, m2: Colors, r: set<Id>)
    requires Advanced(m0, m1, r) && Advanced(m1, m2, r)
    ensures Advanced(m0, m2, r)
  {
  }

  lemma AdvancedMarks(m0: Colors, m1: Colors, r: set<Id>)
    requires Advanced(m0, m1, r)
    ensures forall i :: Marked(m0, i) ==> Marked(m1, i)
    ensures (forall i :: Marked(m0, i) ==> i in r) ==> forall i :: Marked(m1, i) ==> i in r
  {
    forall i | Marked(m0, i) ensures Marked(m1, i) {
      assert m1[i].White? ==> m1[i] == m0[i];
    }
    if forall i :: Marked(m0, i) ==> i in r {
      forall i | Marked(m1, i) ensures i in r {
        assert i in m0 && (m0[i].White? ==> i in r);
      }
    }
  }
}
