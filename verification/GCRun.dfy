// Whole runs: collector steps in any interleaving with what a program does.

module GCRuns {
  import opened GCHeap
  import opened GCInv
  import opened GCSweep
  import opened GCStack
  import opened GCAlloc
  import opened Collectors
  import opened Options

  datatype Action =
    // the collector
    | Steps(lim: int) | Collect
    // writes
    | SetField(t: Id, i: nat, v: Value) | AddKey(t: Id, k: Value) | SetMeta(o: Id, meta: Option<Id>)
    | SetTypeMeta(i: nat, meta: Option<Id>) | SetFenv(o: Id, env: Id) | SetCValue(f: Id, i: nat, v: Value)
    | SetUpvalue(u: Id, v: Value)
    | GrowConstants(p: Id, v: Value) | GrowProtos(p: Id, q: Id) | GrowNames(p: Id, name: Id)
    // the stack
    | Assign(i: nat, v: Value) | PushValue(v: Value) | MoveTop(n: nat) | SetGlobalTable(th: Id, g: Value)
    | Resume(th: Id)
    // new objects, upvalues and the string table
    | Create(b: Body) | CreateUserdata(env: Id) | Intern(text: string) | ResizeTable(n: nat)
    | Capture(level: nat) | CloseFrom(level: nat)

  predicate ValueInHand(h: Heap, v: Value) {
    (v.Ref? ==> Live(h, v.id)) && !v.DeadKey?
  }

  predicate OptionInHand(h: Heap, o: Option<Id>) {
    o.Some? ==> Live(h, o.value)
  }

  // The action is one a program can take, with what is not dead in hand.
  predicate Possible(h: Heap, a: Action) {
    h.running in h.body && h.body[h.running].Thread? && h.body[h.running].top <= |h.body[h.running].stack| &&
    match a
    case Steps(_) => true
    case Collect => true
    case SetField(t, i, v) =>
      Live(h, t) && h.body[t].Table? && i < |h.body[t].slots| && ValueInHand(h, v) &&
      (h.body[t].slots[i].key.Plain? || h.body[t].slots[i].key.Ref?)
    case AddKey(t, k) => Live(h, t) && h.body[t].Table? && ValueInHand(h, k)
    case SetMeta(o, m) => Live(h, o) && (h.body[o].Table? || h.body[o].Userdata?) && OptionInHand(h, m)
    case SetTypeMeta(i, m) => i < |h.mt| && OptionInHand(h, m)
    case SetFenv(o, env) =>
      Live(h, o) && Live(h, env) && (h.body[o].LuaFunction? || h.body[o].CFunction? || h.body[o].Userdata?)
    case SetCValue(f, i, v) => Live(h, f) && h.body[f].CFunction? && i < |h.body[f].values| && ValueInHand(h, v)
    case SetUpvalue(u, v) => Live(h, u) && h.body[u].UpVal? && ValueInHand(h, v)
    case GrowConstants(p, v) => Live(h, p) && h.body[p].Proto? && ValueInHand(h, v)
    case GrowProtos(p, q) => Live(h, p) && h.body[p].Proto? && Live(h, q)
    case GrowNames(p, s) => Live(h, p) && h.body[p].Proto? && Live(h, s) && h.body[s].Str?
    case Assign(i, v) => i < h.body[h.running].top && ValueInHand(h, v)
    case PushValue(v) => ValueInHand(h, v)
    case MoveTop(n) =>
      n <= |h.body[h.running].stack| &&
      forall u :: u in h.body[h.running].openupval && u in h.body && IsOpen(h.body[u]) ==> h.body[u].cell.level < n
    case SetGlobalTable(th, g) => th in h.body && h.body[th].Thread? && ValueInHand(h, g)
    case Resume(th) => Live(h, th) && h.body[th].Thread?
    case Create(b) =>
      OnRootList(b) && !b.Userdata? && (forall r :: r in NewRefs(b) ==> Live(h, r)) &&
      (b.Thread? ==> b.openupval == [] && b.top <= |b.stack|) &&
      (b.Proto? ==> forall n :: n in b.names ==> n in h.body && h.body[n].Str?)
    case CreateUserdata(env) => Live(h, env)
    case Intern(_) => true
    case ResizeTable(n) => n > 0
    case Capture(level) => level < h.body[h.running].top
    case CloseFrom(_) => true
  }

  ghost predicate NoneFreed(h: Heap, h': Heap) {
    forall i :: Reachable(h, i) ==> i in h'.body
  }

  ghost predicate LiveRef(h: Heap, v: Value) {
    v.Ref? ==> Live(h, v.id)
  }

  // Everything a program finds in object i is live.
  ghost predicate HoldsLive(h: Heap, i: Id)
    requires i in h.body
  {
    match h.body[i]
    case Str(_) => true
    case Table(meta, slots) =>
      (meta.Some? ==> Live(h, meta.value)) &&
      forall s :: s in slots && !s.val.Nil? ==> LiveRef(h, s.key) && LiveRef(h, s.val)
    case LuaFunction(env, proto, upvals) =>
      Live(h, env) && Live(h, proto) && forall u :: u in upvals ==> Live(h, u)
    case CFunction(env, values) => Live(h, env) && forall v :: v in values ==> LiveRef(h, v)
    case Proto(k, protos, names) =>
      (forall v :: v in k ==> LiveRef(h, v)) && (forall p :: p in protos ==> Live(h, p)) &&
      forall n :: n in names ==> Live(h, n)
    case Userdata(meta, env) => (meta.Some? ==> Live(h, meta.value)) && Live(h, env)
    case Thread(gt, stack, top, _) =>
      LiveRef(h, gt) && forall k :: 0 <= k < top && k < |stack| ==> LiveRef(h, stack[k])
    case UpVal(Closed(v)) => LiveRef(h, v)
    case UpVal(Open(th, level)) =>
      th in h.body && h.body[th].Thread? && level < |h.body[th].stack| ==> LiveRef(h, h.body[th].stack[level])
  }

  // Where a program starts is live, what can be reached is, and what it finds in a live object.
  ghost predicate Whole(h: Heap) {
    Live(h, h.main) && Live(h, h.running) && LiveRef(h, h.registry) &&
    (forall m :: m in h.mt && m.Some? ==> Live(h, m.value)) &&
    (forall i :: Reachable(h, i) ==> Live(h, i)) && forall i :: Live(h, i) ==> HoldsLive(h, i)
  }

  // Actions that write: into a thread, a prototype under construction, or another object.
  predicate OnThread(a: Action) {
    a.Assign? || a.PushValue? || a.MoveTop? || a.SetGlobalTable?
  }

  predicate Growing(a: Action) {
    a.GrowConstants? || a.GrowProtos? || a.GrowNames?
  }

  predicate Writing(a: Action) {
    a.SetField? || a.AddKey? || a.SetMeta? || a.SetFenv? || a.SetCValue? || a.SetUpvalue? || Growing(a) || OnThread(a)
  }

  // The object an action writes to, and what it becomes.
  function Written(h: Heap, a: Action): (Id, Body)
    requires Writing(a) && Possible(h, a)
  {
    match a
    case SetField(t, i, v) => (t, h.body[t].(slots := h.body[t].slots[i := Slot(h.body[t].slots[i].key, v)]))
    case AddKey(t, k) => (t, h.body[t].(slots := h.body[t].slots + [Slot(k, Nil)]))
    case SetMeta(o, m) => (o, h.body[o].(meta := m))
    case SetFenv(o, env) => (o, h.body[o].(env := env))
    case SetCValue(f, i, v) => (f, h.body[f].(values := h.body[f].values[i := v]))
    case SetUpvalue(u, v) =>
      var c := h.body[u].cell;
      if c.Closed? then (u, UpVal(Closed(v)))
      else if c.th in h.body && h.body[c.th].Thread? && c.level < |h.body[c.th].stack|
      then (c.th, h.body[c.th].(stack := h.body[c.th].stack[c.level := v]))
      else (u, h.body[u])
    case GrowConstants(p, v) => (p, h.body[p].(k := h.body[p].k + [v]))
    case GrowProtos(p, q) => (p, h.body[p].(protos := h.body[p].protos + [q]))
    case GrowNames(p, s) => (p, h.body[p].(names := h.body[p].names + [s]))
    case Assign(i, v) => (h.running, h.body[h.running].(stack := h.body[h.running].stack[i := v]))
    case PushValue(v) => (h.running, Pushed(h.body[h.running], v))
    case MoveTop(n) => (h.running, h.body[h.running].(top := n))
    case SetGlobalTable(th, g) => (th, h.body[th].(gt := g))
  }

  // The same but for the objects.
  ghost predicate SameState(h: Heap, h': Heap) {
    h'.running == h.running && h'.mt == h.mt && h'.fixed == h.fixed
  }

  // A new object, left on top of the stack.
  ghost predicate Left(h: Heap, h': Heap, b: Body)
    requires h.running in h.body && h.body[h.running].Thread? && h.body[h.running].top <= |h.body[h.running].stack|
  {
    exists id :: id !in h.body && id != h.running && Live(h', id) &&
      h'.body == h.body[id := b][h.running := Pushed(h.body[h.running], Ref(id))]
  }

  // The one object of a string is there and not dead.
  ghost predicate Interned(h: Heap, h': Heap, s: string) {
    exists id :: (id in h.body ==> h.body[id] == Str(s)) && h'.body == h.body[id := Str(s)] && Live(h', id) &&
      forall i :: i in h'.body && h'.body[i] == Str(s) ==> i == id
  }

  // What an action does to everything a program can see.
  ghost predicate Effect(h: Heap, a: Action, h': Heap)
    requires Possible(h, a)
  {
    if Writing(a) then
      SameState(h, h') && var (o, b) := Written(h, a); o in h.body && h'.body == h.body[o := b]
    else
      match a
      case Steps(_) => Unseen(h, h')
      case Collect => Unseen(h, h') && forall i :: i in h'.body <==> Reachable(h, i) || i in h.fixed
      case SetTypeMeta(i, m) =>
        h'.body == h.body && h'.running == h.running && h'.fixed == h.fixed && h'.mt == h.mt[i := m]
      case Resume(th) => h'.body == h.body && h'.running == th && h'.mt == h.mt && h'.fixed == h.fixed
      case Create(b) => SameState(h, h') && Left(h, h', b)
      case CreateUserdata(env) => SameState(h, h') && Left(h, h', Userdata(None, env))
      case Intern(s) => SameState(h, h') && Interned(h, h', s)
      case ResizeTable(_) => SameState(h, h') && h'.body == h.body
      case Capture(level) => SameState(h, h') && Captured(h, h', level)
      case CloseFrom(level) => SameState(h, h') && ClosedDown(h, h', h.running, level)
  }

  // The one upvalue of a slot of the running thread, open on it, is there and not dead.
  ghost predicate Captured(h: Heap, h': Heap, level: nat)
    requires h.running in h.body && h.body[h.running].Thread?
  {
    exists u :: h'.body.Keys == h.body.Keys + {u} && h'.body[u] == UpVal(Open(h.running, level)) && Live(h', u) &&
      (forall v :: v in h'.body && h'.body[v] == UpVal(Open(h.running, level)) ==> v == u) &&
      (forall i :: i in h.body && i != h.running ==> h'.body[i] == h.body[i]) &&
      h'.body[h.running].Thread? &&
      h'.body[h.running] == h.body[h.running].(openupval := h'.body[h.running].openupval)
  }

  method Write(c: Collector, a: Action)
    requires c.Valid() && Possible(c.H(), a) && Writing(a) && !OnThread(a) && !Growing(a)
    modifies c
    ensures c.Valid() && Effect(old(c.H()), a, c.H())
  {
    hide Inv;
    match a {
      case SetField(t, i, v) => c.SetEntry(t, i, v);
      case AddKey(t, k) => c.NewKey(t, k);
      case SetMeta(o, m) => c.SetMetatable(o, m);
      case SetFenv(o, env) => c.SetEnv(o, env);
      case SetCValue(f, i, v) => c.SetCUpvalue(f, i, v);
      case SetUpvalue(u, v) => c.SetUpval(u, v);
    }
  }

  method Grow(c: Collector, a: Action)
    requires c.Valid() && Possible(c.H(), a) && Growing(a)
    modifies c
    ensures c.Valid() && Effect(old(c.H()), a, c.H())
  {
    hide Inv;
    match a {
      case GrowConstants(p, v) => c.AddConstant(p, v);
      case GrowProtos(p, q) => c.AddProto(p, q);
      case GrowNames(p, s) => c.AddName(p, s);
    }
  }

  method WriteThread(c: Collector, a: Action)
    requires c.Valid() && Possible(c.H(), a) && OnThread(a)
    modifies c
    ensures c.Valid() && Effect(old(c.H()), a, c.H())
  {
    hide Inv;
    match a {
      case Assign(i, v) => c.SetStack(i, v);
      case PushValue(v) => c.Push(v);
      case MoveTop(n) => c.SetTop(n);
      case SetGlobalTable(th, g) => c.SetGlobals(th, g);
    }
  }

  predicate Allocating(a: Action) {
    a.Create? || a.CreateUserdata?
  }

  method Allocate(c: Collector, a: Action)
    requires c.Valid() && Possible(c.H(), a) && Allocating(a)
    modifies c
    ensures c.Valid() && Effect(old(c.H()), a, c.H())
  {
    hide Inv, Reachable, Pushed, Left;
    ghost var h := c.H();
    match a {
      case Create(b) =>
        var id := c.New(b);
        LeftThere(h, c.H(), b, id);
      case CreateUserdata(env) =>
        var id := c.NewUserdata(env);
        LeftThere(h, c.H(), Userdata(None, env), id);
    }
  }

  lemma LeftThere(h: Heap, h': Heap, b: Body, id: Id)
    requires h.running in h.body && h.body[h.running].Thread? && h.body[h.running].top <= |h.body[h.running].stack|
    requires id !in h.body && id != h.running && Live(h', id)
    requires h'.body == h.body[id := b][h.running := Pushed(h.body[h.running], Ref(id))]
    ensures Left(h, h', b)
  {
  }

  lemma InternedThere(h: Heap, h': Heap, s: string, id: Id)
    requires (id in h.body ==> h.body[id] == Str(s)) && h'.body == h.body[id := Str(s)] && Live(h', id)
    requires forall i :: i in h'.body && h'.body[i] == Str(s) ==> i == id
    ensures Interned(h, h', s)
  {
  }

  lemma CapturedThere(h: Heap, h': Heap, level: nat, u: Id)
    requires h.running in h.body && h.body[h.running].Thread? && h'.body.Keys == h.body.Keys + {u}
    requires h'.body[u] == UpVal(Open(h.running, level)) && Live(h', u)
    requires forall v :: v in h'.body && h'.body[v] == UpVal(Open(h.running, level)) ==> v == u
    requires forall i :: i in h.body && i != h.running ==> h'.body[i] == h.body[i]
    requires h'.body[h.running].Thread?
    requires h'.body[h.running] == h.body[h.running].(openupval := h'.body[h.running].openupval)
    ensures Captured(h, h', level)
  {
  }

  // Objects of which there is one for each string, or for each slot.
  predicate Sharing(a: Action) {
    a.Intern? || a.Capture? || a.CloseFrom?
  }

  method InternOne(c: Collector, s: string)
    requires c.Valid()
    modifies c
    ensures c.Valid() && SameState(old(c.H()), c.H()) && Interned(old(c.H()), c.H(), s)
  {
    hide Inv, Interned;
    ghost var h := c.H();
    var id := c.NewString(s);
    InternedThere(h, c.H(), s, id);
  }

  method CaptureOne(c: Collector, level: nat)
    requires c.Valid() && c.ThreadOk(c.running) && level < c.body[c.running].top
    modifies c
    ensures c.Valid() && SameState(old(c.H()), c.H()) && Captured(old(c.H()), c.H(), level)
  {
    hide Inv, Captured;
    ghost var h := c.H();
    var u := c.FindUpval(level);
    CapturedThere(h, c.H(), level, u);
  }

  method Share(c: Collector, a: Action)
    requires c.Valid() && Possible(c.H(), a) && Sharing(a)
    modifies c
    ensures c.Valid() && Effect(old(c.H()), a, c.H())
  {
    hide Inv, ClosedDown, Interned, Captured, Left, Unseen, Written, Reachable;
    match a {
      case Intern(s) => InternOne(c, s);
      case Capture(level) => CaptureOne(c, level);
      case CloseFrom(level) => c.Close(level);
    }
  }

  // What is left: the collector, and what concerns no object in particular.
  method Work(c: Collector, a: Action)
    requires c.Valid() && Possible(c.H(), a) && !Writing(a) && !Allocating(a) && !Sharing(a)
    modifies c
    ensures c.Valid() && Effect(old(c.H()), a, c.H())
  {
    hide Inv, Reachable, Unseen;
    match a {
      case Steps(lim) => var _ := c.Step(lim);
      case Collect => c.FullGC();
      case SetTypeMeta(i, m) => c.SetBasicMetatable(i, m);
      case Resume(th) => c.Switch(th);
      case ResizeTable(n) => c.ResizeStrings(n);
    }
  }

  method Perform(c: Collector, a: Action)
    requires c.Valid() && Possible(c.H(), a)
    modifies c
    ensures c.Valid() && NoneFreed(old(c.H()), c.H()) && Effect(old(c.H()), a, c.H())
  {
    hide Inv;
    ghost var h := c.H();
    if OnThread(a) {
      WriteThread(c, a);
    } else if Growing(a) {
      Grow(c, a);
    } else if Writing(a) {
      Write(c, a);
    } else if Allocating(a) {
      Allocate(c, a);
    } else if Sharing(a) {
      Share(c, a);
    } else {
      Work(c, a);
    }
    EffectThere(h, a, c.H(), c.hash);
  }

  // Whatever a program does, and whenever the collector takes its steps, no object is freed
  // while it can be reached, and the collector's own steps leave all of them as they were.
  method Run(c: Collector, actions: seq<Action>) returns (ghost hs: seq<Heap>)
    requires c.Valid()
    modifies c
    ensures c.Valid() && |hs| == |actions| + 1 && hs[0] == old(c.H()) && hs[|actions|] == c.H()
    ensures forall k :: 0 <= k < |hs| ==> Inv(hs[k], c.hash) && Whole(hs[k])
    ensures forall k :: 0 <= k < |actions| ==> NoneFreed(hs[k], hs[k + 1])
    ensures forall k :: 0 <= k < |actions| ==>
              if Possible(hs[k], actions[k]) then Effect(hs[k], actions[k], hs[k + 1]) else hs[k + 1] == hs[k]
  {
    hide Inv, Reachable, NoneFreed, Effect, Whole, Possible;
    hs := [c.H()];
    AllThere(c.H(), c.hash);
    for n := 0 to |actions|
      invariant c.Valid() && |hs| == n + 1 && hs[0] == old(c.H()) && hs[n] == c.H()
      invariant forall k :: 0 <= k < |hs| ==> Inv(hs[k], c.hash) && Whole(hs[k])
      invariant forall k :: 0 <= k < n ==> NoneFreed(hs[k], hs[k + 1])
      invariant forall k :: 0 <= k < n ==>
                  if Possible(hs[k], actions[k]) then Effect(hs[k], actions[k], hs[k + 1]) else hs[k + 1] == hs[k]
    {
      if Possible(c.H(), actions[n]) {
        Perform(c, actions[n]);
      }
      AllThere(c.H(), c.hash);
      hs := hs + [c.H()];
    }
  }

  lemma AllThere(h: Heap, hash: string -> nat)
    requires Inv(h, hash)
    ensures forall i :: Reachable(h, i) ==> i in h.body && Live(h, i)
    ensures NoneFreed(h, h) && Whole(h)
  {
    KeysOf(h, hash);
    StartsLive(h);
    hide Inv, Reachable, Safe, Refs, HoldsLive;
    forall i | Reachable(h, i) ensures i in h.body && Live(h, i) {
      ReachableLive(h, i);
    }
    forall i | Live(h, i) ensures HoldsLive(h, i) {
      NothingDangles(h, hash);
      RefsHeld(h, i);
    }
  }

  lemma StartsLive(h: Heap)
    requires Safe(h)
    ensures Live(h, h.main) && Live(h, h.running) && LiveRef(h, h.registry)
    ensures forall m :: m in h.mt && m.Some? ==> Live(h, m.value)
  {
    hide Live;
    assert h.main in Roots(h) && h.running in Roots(h);
    if h.registry.Ref? { assert h.registry.id in Roots(h); }
    forall m | m in h.mt && m.Some? ensures Live(h, m.value) {
      var k :| 0 <= k < |h.mt| && h.mt[k] == m;
      assert m.value in Roots(h);
    }
  }

  lemma RefsHeld(h: Heap, i: Id)
    requires i in h.body && forall r :: r in Refs(h.body, i) ==> Live(h, r)
    ensures HoldsLive(h, i)
  {
    hide Live;
    match h.body[i]
    case Table(meta, slots) =>
      forall s | s in slots && !s.val.Nil? ensures LiveRef(h, s.key) && LiveRef(h, s.val) {
        var k :| 0 <= k < |slots| && slots[k] == s;
        if s.key.Ref? { assert s.key.id in SlotRefs(slots[k]); }
        if s.val.Ref? { assert s.val.id in SlotRefs(slots[k]); }
      }
    case LuaFunction(env, proto, upvals) => IdsHeld(h, upvals);
    case CFunction(env, values) => ValuesHeld(h, values);
    case Proto(k, protos, names) =>
      ValuesHeld(h, k);
      IdsHeld(h, protos);
      IdsHeld(h, names);
    case Thread(gt, stack, top, _) =>
      var s := LiveStack(h.body[i]);
      ValuesHeld(h, s);
      forall k | 0 <= k < top && k < |stack| ensures LiveRef(h, stack[k]) {
        assert s[k] == stack[k] && s[k] in s;
      }
    case _ =>
  }

  lemma IdsHeld(h: Heap, ids: seq<Id>)
    ensures (forall r :: r in IdsRefs(ids) ==> Live(h, r)) ==> forall u :: u in ids ==> Live(h, u)
  {
    forall u | u in ids ensures u in IdsRefs(ids) {
      var k :| 0 <= k < |ids| && ids[k] == u;
    }
  }

  lemma ValuesHeld(h: Heap, vs: seq<Value>)
    ensures (forall r :: r in ValuesRefs(vs) ==> Live(h, r)) ==> forall v :: v in vs ==> LiveRef(h, v)
  {
    forall v | v in vs && v.Ref? ensures v.id in ValuesRefs(vs) {
      var k :| 0 <= k < |vs| && vs[k] == v;
    }
  }

  lemma NothingDangles(h: Heap, hash: string -> nat)
    requires Inv(h, hash)
    ensures forall i, r {:trigger r in Refs(h.body, i)} :: i in h.body && Live(h, i) && r in Refs(h.body, i) ==>
              Live(h, r)
  {
    assert Safe(h);
    hide Inv, Refs, AllRefs;
    forall i, r | i in h.body && Live(h, i) && r in Refs(h.body, i) ensures Live(h, r) {
      RefsAreAll(h.body, i, r);
      assert r in AllRefs(h.body, i);
    }
  }

  // Nothing an action does frees what can be reached.
  lemma EffectThere(h: Heap, a: Action, h': Heap, hash: string -> nat)
    requires Possible(h, a) && Inv(h, hash) && Inv(h', hash) && Effect(h, a, h')
    ensures NoneFreed(h, h')
  {
    hide Inv, Reachable, Effect, Possible, Unseen, Whole;
    AllThere(h, hash);
    AllThere(h', hash);
    if a.Steps? || a.Collect? {
      UnseenThere(h, a, h');
    } else if a.CloseFrom? {
      ClosedThere(h, a, h');
    } else {
      OthersThere(h, a, h');
    }
  }

  lemma UnseenThere(h: Heap, a: Action, h': Heap)
    requires Possible(h, a) && (a.Steps? || a.Collect?) && Effect(h, a, h')
    requires forall i :: Reachable(h', i) ==> i in h'.body
    ensures NoneFreed(h, h')
  {
    hide Reachable, Intact;
  }

  lemma OthersThere(h: Heap, a: Action, h': Heap)
    requires Possible(h, a) && !a.Steps? && !a.Collect? && !a.CloseFrom? && Effect(h, a, h')
    requires forall i :: Reachable(h, i) ==> i in h.body
    ensures NoneFreed(h, h')
  {
    hide Reachable, Possible, Written;
    assert forall i :: i in h.body ==> i in h'.body;
  }

  lemma ClosedThere(h: Heap, a: Action, h': Heap)
    requires Possible(h, a) && a.CloseFrom? && Effect(h, a, h')
    requires forall i :: Reachable(h, i) ==> i in h.body && Live(h, i)
    ensures NoneFreed(h, h')
  {
    hide Reachable, Possible;
    forall i | Reachable(h, i) ensures i in h'.body {
      var l := h.body[h.running].openupval;
      if i in l && i !in h'.body[h.running].openupval { assert TookValue(h, h', i); }
    }
  }
}
