// The code generator proper: an object that appends to its code and patches it in
// place.  A patch list is the address of its first jump; each pending jump's offset
// points to the next one, and NO_JUMP ends the list.  Every method does to the object
// what CodeGen says, with lists as sequences, and leaves alone the links of the lists
// that other descriptors hold.

module JumpLists {
  import opened LuaVM
  import opened CodeGen
  import opened CodeGenInv

  // getjump: the jump after the one at pc.
  function Link(code: seq<Instr>, pc: int): int
    requires 0 <= pc < |code| && code[pc].OpJmp?
  {
    if code[pc].sbx == NO_JUMP then NO_JUMP else Target(code, pc)
  }

  // Following the offsets from `head' goes through the jumps in `list' and ends.
  ghost predicate Threads(code: seq<Instr>, head: int, list: seq<int>)
    decreases list
  {
    if list == [] then head == NO_JUMP
    else head == list[0] && 0 <= head < |code| && code[head].OpJmp? && Threads(code, Link(code, head), list[1..])
  }

  // The code in the object against the model: they differ only in the offsets of
  // pending jumps.
  ghost predicate Matches(code: seq<Instr>, mcode: seq<Instr>) {
    |code| == |mcode| &&
    forall i {:trigger code[i]} {:trigger mcode[i]} :: 0 <= i < |code| ==>
      if Pending(mcode, i) then code[i].OpJmp? else code[i] == mcode[i]
  }

  // The links of pending jumps that are not waiting to land, nor in `own', are as before.
  ghost predicate LinksKept(m0: FS, c0: seq<Instr>, c: seq<Instr>, own: seq<int>) {
    forall j :: Pending(m0.code, j) && j !in m0.jpc && j !in own ==> j < |c0| && j < |c| && c[j] == c0[j]
  }

  lemma {:induction false} ThreadsSame(c: seq<Instr>, c': seq<Instr>, head: int, list: seq<int>)
    requires Threads(c, head, list)
    requires forall j :: j in list && 0 <= j < |c| ==> j < |c'| && c'[j] == c[j]
    ensures Threads(c', head, list)
    decreases list
  {
    if list != [] {
      assert list == [list[0]] + list[1..];
      assert forall j :: j in list[1..] ==> j in list;
      ThreadsSame(c, c', Link(c, head), list[1..]);
    }
  }

  lemma {:induction false} ThreadsIn(c: seq<Instr>, head: int, list: seq<int>)
    requires Threads(c, head, list)
    ensures forall j :: j in list ==> 0 <= j < |c| && c[j].OpJmp?
    ensures head == NO_JUMP <==> list == []
    decreases list
  {
    if list != [] {
      assert list == [list[0]] + list[1..];
      ThreadsIn(c, Link(c, head), list[1..]);
    }
  }

  // Making the last jump of one list point to the first of another joins them.
  lemma {:induction false} ThreadsAppend(c: seq<Instr>, head: int, a: seq<int>, head2: int, b: seq<int>)
    requires a != [] && b != [] && Threads(c, head, a) && Threads(c, head2, b) && Distinct(a) && Disjoint(a, b)
    requires 0 <= a[|a| - 1] < |c|
    ensures var last := a[|a| - 1]; Threads(c[last := OpJmp(head2 - (last + 1))], head, a + b)
    decreases a
  {
    var last := a[|a| - 1];
    var c' := c[last := OpJmp(head2 - (last + 1))];
    ThreadsIn(c, head, a);
    if |a| == 1 {
      assert a + b == [head] + b;
      assert head2 == b[0] && last !in b && head2 != last;
      ThreadsSame(c, c', head2, b);
      assert (a + b)[1..] == b;
    } else {
      DistinctTail(a);
      assert a[1..][|a[1..]| - 1] == last && a[0] != last;
      ThreadsAppend(c, Link(c, head), a[1..], head2, b);
      assert (a + b)[1..] == a[1..] + b;
    }
  }

  lemma LinksTrans(m0: FS, c0: seq<Instr>, m1: FS, c1: seq<Instr>, c2: seq<Instr>,
                   own0: seq<int>, own1: seq<int>, own: seq<int>)
    requires Frame(m0, m1, own0) && LinksKept(m0, c0, c1, own0) && LinksKept(m1, c1, c2, own1)
    requires Fresh(m0, own, own1) && forall j :: j in own0 ==> j in own
    ensures LinksKept(m0, c0, c2, own)
  {
    forall j | Pending(m0.code, j) && j !in m0.jpc && j !in own ensures j < |c0| && j < |c2| && c2[j] == c0[j] {
      assert SameJump(m0.code, m1.code, j) && j !in m1.jpc && j !in own1;
      assert Pending(m1.code, j);
    }
  }

  // A list of pending jumps that nothing touched is still threaded.
  lemma ListStays(m0: FS, c0: seq<Instr>, c: seq<Instr>, own: seq<int>, head: int, list: seq<int>)
    requires LinksKept(m0, c0, c, own) && Threads(c0, head, list) && PendingList(m0.code, list)
    requires Disjoint(list, m0.jpc) && Disjoint(list, own)
    ensures Threads(c, head, list)
  {
    forall j | j in list ensures j < |c0| && j < |c| && c[j] == c0[j] {
      assert Pending(m0.code, j);
    }
    ThreadsSame(c0, c, head, list);
  }
}

module FuncStates {
  import opened LuaValue
  import opened LuaVM
  import opened CodeGen
  import opened CodeGenInv
  import opened JumpLists
  import opened Options

  // The C descriptor: the lists are the addresses of their first jumps.
  datatype ExpDesc = ExpDesc(k: Kind, t: int, f: int)

  class FuncState {
    const ops: Ops
    var code: seq<Instr>
    var k: seq<Value>
    var lasttarget: int
    var jpc: int
    var freereg: int
    var nactvar: int
    var maxstacksize: int
    var overflow: bool
    ghost var model: FS

    ghost predicate Matched()
      reads this
    {
      && Matches(code, model.code) && Threads(code, jpc, model.jpc)
      && k == model.k && lasttarget == model.lasttarget && freereg == model.freereg
      && nactvar == model.nactvar && maxstacksize == model.maxstack && overflow == model.overflow
    }

    ghost predicate Valid()
      reads this
    {
      Inv(model) && Matched()
    }

    ghost predicate Denotes(e: ExpDesc, a: Exp)
      reads this
    {
      e.k == a.k && Threads(code, e.t, a.t) && Threads(code, e.f, a.f) &&
      (e.k.VJmp? ==> Threads(code, e.k.pc, [e.k.pc]))
    }

    // open_func, with the parameters already active
    constructor (ops: Ops, nparams: nat)
      requires nparams <= 200
      ensures Valid() && code == [] && this.ops == ops
      ensures model == FS([], [], -1, [], nparams, nparams, if nparams < 2 then 2 else nparams, false)
    {
      this.ops := ops;
      code, k, lasttarget, jpc := [], [], -1, NO_JUMP;
      freereg, nactvar, maxstacksize, overflow := nparams, nparams, if nparams < 2 then 2 else nparams, false;
      model := FS([], [], -1, [], nparams, nparams, if nparams < 2 then 2 else nparams, false);
    }

    function GetJumpControl(pc: int): (c: int)
      requires 0 <= pc < |code|
      reads this
    {
      if pc >= 1 && IsTest(code[pc - 1]) then pc - 1 else pc
    }

    // Whether a jump of the list does not produce a value.
    method ProbeValues(head: int, ghost list: seq<int>) returns (need: bool)
      requires Matches(code, model.code) && Threads(code, head, list) && PendingList(model.code, list)
      ensures need == NeedValue(model.code, list)
    {
      var at := head;
      ghost var rest := list;
      while at != NO_JUMP
        invariant Threads(code, at, rest) && |rest| <= |list| && rest == list[|list| - |rest|..]
        invariant forall j :: j in list && j !in rest ==> ControlIsTestSet(model.code, j)
        decreases rest
      {
        assert Pending(model.code, at) by { assert at in list; }
        var c := GetJumpControl(at);
        assert c == Control(model.code, at);
        if !code[c].OpTestSet? {
          assert at in list && !ControlIsTestSet(model.code, at);
          return true;
        }
        at := Link(code, at);
        rest := rest[1..];
      }
      return false;
    }

    method PatchTestReg(node: int, reg: int) returns (done: bool)
      requires Matches(code, model.code) && Pending(model.code, node)
      modifies this`code, this`model
      ensures done == ControlIsTestSet(old(model.code), node)
      ensures model == old(model).(code := CodeGen.PatchTestReg(old(model.code), node, reg))
      ensures Matches(code, model.code) && Pending(model.code, node)
      ensures forall j :: Pending(old(model.code), j) ==> code[j] == old(code[j])
    {
      var c := GetJumpControl(node);
      assert c == Control(model.code, node);
      if !code[c].OpTestSet? {
        return false;
      }
      code := code[c := PatchTest(code[c], reg)];
      model := model.(code := CodeGen.PatchTestReg(model.code, node, reg));
      return true;
    }

    method FixJump(pc: int, dest: int)
      requires Matches(code, model.code) && Pending(model.code, pc)
      modifies this`code, this`model
      ensures model == old(model).(code := CodeGen.FixJump(old(model.code), pc, dest))
      ensures code == old(code)[pc := OpJmp(dest - (pc + 1))] && Matches(code, model.code)
    {
      code := code[pc := OpJmp(dest - (pc + 1))];
      model := model.(code := CodeGen.FixJump(model.code, pc, dest));
    }

    method PatchOne(at: int, vtarget: int, reg: int, dtarget: int)
      requires Matches(code, model.code) && Pending(model.code, at)
      modifies this`code, this`model
      ensures var dest := if ControlIsTestSet(old(model.code), at) then vtarget else dtarget;
              model == old(model).(code := CodeGen.FixJump(CodeGen.PatchTestReg(old(model.code), at, reg), at, dest))
      ensures Matches(code, model.code)
      ensures forall j :: Pending(old(model.code), j) && j != at ==> Pending(model.code, j) && code[j] == old(code[j])
    {
      OneJumpPatched(model.code, at, vtarget, reg, dtarget);
      var done := PatchTestReg(at, reg);
      FixJump(at, if done then vtarget else dtarget);
    }

    // Patches every jump of a list, following the links as they are used up.
    method PatchListAux(head: int, vtarget: int, reg: int, dtarget: int, ghost list: seq<int>)
      requires Matches(code, model.code) && TestsPaired(model.code)
      requires Threads(code, head, list) && PendingList(model.code, list)
      modifies this`code, this`model
      ensures model == old(model).(code := CodeGen.PatchListAux(old(model.code), list, vtarget, reg, dtarget))
      ensures Matches(code, model.code)
      ensures forall j :: Pending(old(model.code), j) && j !in list ==> code[j] == old(code[j])
    {
      hide CodeGen.PatchListAux, CodeGen.FixJump, CodeGen.PatchTestReg;
      var at := head;
      ghost var rest := list;
      while at != NO_JUMP
        invariant Matches(code, model.code) && |code| == |old(code)|
        invariant Threads(code, at, rest) && PendingList(model.code, rest)
        invariant forall j :: j in rest ==> j in list
        invariant model == old(model).(code := model.code)
        invariant CodeGen.PatchListAux(model.code, rest, vtarget, reg, dtarget) ==
                  CodeGen.PatchListAux(old(model.code), list, vtarget, reg, dtarget)
        invariant forall j :: Pending(old(model.code), j) && j !in list ==>
                    Pending(model.code, j) && code[j] == old(code[j])
        decreases rest
      {
        var next := Link(code, at);
        label Before:
        ghost var m0, tail := model.code, rest[1..];
        DistinctTail(rest);
        assert rest == [at] + tail && Pending(m0, at);
        PatchUnfolds(m0, rest, vtarget, reg, dtarget);
        PatchOne(at, vtarget, reg, dtarget);
        ThreadsSame(old@Before(code), code, next, tail);
        at, rest := next, tail;
      }
      PatchUnfolds(model.code, rest, vtarget, reg, dtarget);
    }

    method RemoveValues(head: int, ghost list: seq<int>)
      requires Matches(code, model.code) && Threads(code, head, list) && PendingList(model.code, list)
      modifies this`code, this`model
      ensures model == old(model).(code := CodeGen.RemoveValues(old(model.code), list))
      ensures Matches(code, model.code) && Threads(code, head, list)
      ensures forall j :: Pending(old(model.code), j) ==> Pending(model.code, j) && code[j] == old(code[j])
    {
      var at := head;
      ghost var rest := list;
      while at != NO_JUMP
        invariant Matches(code, model.code) && |code| == |old(code)|
        invariant Threads(code, at, rest) && PendingList(model.code, rest)
        invariant model == old(model).(code := model.code)
        invariant CodeGen.RemoveValues(model.code, rest) == CodeGen.RemoveValues(old(model.code), list)
        invariant forall j :: Pending(old(model.code), j) ==> Pending(model.code, j) && code[j] == old(code[j])
        decreases rest
      {
        label Before:
        ghost var m0, tail := model.code, rest[1..];
        DistinctTail(rest);
        assert rest == [at] + tail && Pending(m0, at);
        var _ := PatchTestReg(at, NO_REG);
        forall j | Pending(m0, j) ensures Pending(model.code, j) && code[j] == old@Before(code[j]) {
        }
        ThreadsSame(old@Before(code), code, Link(code, at), tail);
        at, rest := Link(code, at), tail;
      }
      forall j | j in list && 0 <= j < |old(code)| ensures j < |code| && code[j] == old(code[j]) {
        assert Pending(old(model.code), j);
      }
      ThreadsSame(old(code), code, head, list);
    }

    // luaK_concat: the second list goes behind the first.
    method Concat(l1: int, l2: int, ghost a: seq<int>, ghost b: seq<int>) returns (l: int)
      requires Matches(code, model.code) && PendingList(model.code, a) && PendingList(model.code, b)
      requires Threads(code, l1, a) && Threads(code, l2, b) && Disjoint(a, b)
      modifies this`code
      ensures Matches(code, model.code) && Threads(code, l, a + b)
      ensures |code| == |old(code)| && forall j :: 0 <= j < |code| && j !in a ==> code[j] == old(code)[j]
    {
      ThreadsIn(code, l1, a);
      ThreadsIn(code, l2, b);
      if l2 == NO_JUMP {
        assert a + b == a;
        return l1;
      }
      if l1 == NO_JUMP {
        assert a + b == b;
        return l2;
      }
      var at, next := l1, Link(code, l1);
      ghost var n := 1;
      assert a[1..] == a[n..];
      while next != NO_JUMP
        invariant 1 <= n <= |a| && at == a[n - 1] && 0 <= at < |code| && code[at].OpJmp? && next == Link(code, at)
        invariant Threads(code, next, a[n..])
        decreases |a| - n
      {
        assert a[n..][1..] == a[n + 1..];
        at, next, n := next, Link(code, next), n + 1;
      }
      assert n == |a| by { ThreadsIn(code, next, a[n..]); }
      assert Pending(model.code, at) by { assert at in a; }
      ThreadsAppend(code, l1, a, l2, b);
      code := code[at := OpJmp(l2 - (at + 1))];
      return l1;
    }

    // luaK_code
    method Emit(i: Instr) returns (pc: int)
      requires Matched() && TestsPaired(model.code) && PendingList(model.code, model.jpc) && i != OpJmp(NO_JUMP)
      modifies this
      ensures Matched() && model == CodeGen.Emit(old(model), i) && pc == |old(code)|
      ensures LinksKept(old(model), old(code), code, [])
      ensures old(model.jpc) == [] ==> code == old(code) + [i]
    {
      PatchListAux(jpc, |code|, NO_REG, |code|, model.jpc);
      jpc := NO_JUMP;
      pc := |code|;
      code := code + [i];
      model := model.(code := model.code + [i], jpc := []);
    }

    method GetLabel()
      modifies this`lasttarget, this`model
      ensures lasttarget == |code| && model == old(model).(lasttarget := |code|)
    {
      lasttarget := |code|;
      model := model.(lasttarget := |code|);
    }

    method PatchToHere(list: int, ghost l: seq<int>)
      requires Matched() && PendingList(model.code, model.jpc) && PendingList(model.code, l)
      requires Threads(code, list, l) && Disjoint(model.jpc, l)
      modifies this
      ensures Matched() && model == CodeGen.PatchToHere(old(model), l)
      ensures |code| == |old(code)| && forall j :: 0 <= j < |code| && j !in old(model.jpc) ==> code[j] == old(code)[j]
    {
      GetLabel();
      jpc := Concat(jpc, list, model.jpc, l);
      model := model.(jpc := model.jpc + l);
    }

    // luaK_jump
    method Jump() returns (j: int, ghost l: seq<int>)
      requires Matched() && PendingList(model.code, model.jpc)
      modifies this
      ensures Matched() && (model, l) == CodeGen.Jump(old(model)) && Threads(code, j, l)
      ensures |code| == |old(code)| + 1 && forall i :: 0 <= i < |old(code)| ==> code[i] == old(code)[i]
    {
      var hold := jpc;
      ghost var held, n := model.jpc, |code|;
      j := |code|;
      code := code + [OpJmp(NO_JUMP)];
      model := model.(code := model.code + [OpJmp(NO_JUMP)], jpc := []);
      jpc := NO_JUMP;
      ThreadsSame(old(code), code, hold, held);
      assert Threads(code, j, [n]);
      j := Concat(j, hold, [n], held);
      l := [n] + held;
    }

    method CondJump(i: Instr) returns (j: int, ghost l: seq<int>)
      requires Valid() && IsTest(i)
      modifies this
      ensures Matched() && (model, l) == CodeGen.CondJump(old(model), i) && Threads(code, j, l)
      ensures LinksKept(old(model), old(code), code, [])
    {
      var pc := Emit(i);
      j, l := Jump();
    }

    method EmitValid(i: Instr) returns (pc: int)
      requires Valid() && Plain(i)
      modifies this
      ensures Valid() && model == CodeGen.Emit(old(model), i) && pc == |old(code)|
      ensures LinksKept(old(model), old(code), code, [])
    {
      EmitInv(model, i);
      pc := Emit(i);
    }

    // luaK_nil for one register
    method Nil(from: int)
      requires Valid() && from >= model.nactvar
      modifies this
      ensures Valid() && model == EmitNil(old(model), from, 1)
      ensures LinksKept(old(model), old(code), code, [])
    {
      hide Inv, Frame, CodeGen.Emit;
      EmitNilInv(model, from);
      EmitNilCases(model, from);
      InvParts(model);
      if |code| > lasttarget {
        if |code| == 0 {
          if from >= nactvar {
            return;
          }
        } else {
          var previous := code[|code| - 1];
          assert model.code[|code| - 1].OpJmp? || previous == model.code[|code| - 1];
          if previous.OpLoadNil? {
            if previous.a <= from <= previous.b + 1 {
              if from > previous.b {
                ghost var m0 := model.code;
                code := code[|code| - 1 := OpLoadNil(previous.a, from)];
                model := model.(code := model.code[|code| - 1 := OpLoadNil(previous.a, from)]);
                LastChanged(old(code), m0, model.jpc, jpc, OpLoadNil(previous.a, from));
              }
              return;
            }
          }
        }
      }
      var _ := Emit(OpLoadNil(from, from));
    }

    method CheckStack(n: nat)
      modifies this`maxstacksize, this`overflow
      ensures maxstacksize == (if old(maxstacksize) < freereg + n < MAXSTACK then freereg + n else old(maxstacksize))
      ensures overflow == (old(overflow) || (freereg + n > old(maxstacksize) && freereg + n >= MAXSTACK))
    {
      var newstack := freereg + n;
      if newstack > maxstacksize {
        if newstack >= MAXSTACK {
          overflow := true;  // "function or expression too complex"
        } else {
          maxstacksize := newstack;
        }
      }
    }

    method ReserveRegs(n: nat)
      requires Valid()
      modifies this
      ensures Valid() && model == CodeGen.ReserveRegs(old(model), n) && code == old(code) && jpc == old(jpc)
    {
      CheckStack(n);
      freereg := freereg + n;
      model := CodeGen.ReserveRegs(model, n);
    }

    // The register freed is the topmost one.
    method FreeReg(reg: int)
      requires Matched() && (reg >= nactvar ==> reg == freereg - 1)
      modifies this`freereg, this`model
      ensures Matched() && model == CodeGen.FreeReg(old(model), reg)
    {
      if reg >= nactvar {
        freereg := freereg - 1;
        model := CodeGen.FreeReg(model, reg);
      }
    }

    method FreeExp(e: ExpDesc, ghost a: Exp)
      requires Matched() && e.k == a.k && FreesTop(model, a)
      modifies this`freereg, this`model
      ensures Matched() && model == CodeGen.FreeExp(old(model), a)
    {
      if e.k.VNonreloc? {
        FreeReg(e.k.reg);
      }
    }

    // addk: the table of constants already in k is searched in order
    method AddK(v: Value) returns (i: int)
      requires Matched()
      modifies this`k, this`model
      ensures Matched() && (model, i) == CodeGen.AddK(old(model), v)
    {
      i := 0;
      while i < |k| && k[i] != v
        invariant 0 <= i <= |k| && IndexIn(k, v) == i + IndexIn(k[i..], v)
      {
        assert k[i..][1..] == k[i + 1..];
        i := i + 1;
      }
      if i == |k| {
        k := k + [v];
      }
      model := CodeGen.AddK(model, v).0;
    }

    method DischargeVars(e: ExpDesc, ghost a: Exp, ghost f0: int) returns (e': ExpDesc, ghost a': Exp)
      requires Valid() && (Usable(model, a, f0) || Ready(a)) && Denotes(e, a)
      modifies this
      ensures Valid() && (model, a') == CodeGen.DischargeVars(old(model), a) && Denotes(e', a')
      ensures LinksKept(old(model), old(code), code, [])
    {
      if !Ready(a) { DischargeVarsInv(model, a, f0); }
      e', a' := e, CodeGen.DischargeVars(model, a).1;
      if e.k.VLocal? {
        e' := e.(k := VNonreloc(e.k.reg));
      } else if e.k.VUpval? {
        var pc := EmitValid(OpGetUpval(0, e.k.uv));
        e' := e.(k := VReloc(pc));
        ListStays(old(model), old(code), code, [], e.t, a.t);
        ListStays(old(model), old(code), code, [], e.f, a.f);
      }
    }

    method CodeLabel(a: int, b: bool, skip: bool) returns (pc: int)
      requires Matched() && TestsPaired(model.code) && PendingList(model.code, model.jpc)
      modifies this
      ensures Matched() && model == CodeGen.CodeLabel(old(model), a, b, skip) && pc == |old(code)|
      ensures forall j :: 0 <= j < |old(code)| && old(model.jpc) == [] ==> code[j] == old(code)[j]
      ensures model.jpc == [] && TestsPaired(model.code)
      ensures forall j :: Pending(old(model.code), j) && old(model.jpc) == [] ==> Pending(model.code, j)
    {
      hide TestsPaired, PendingList;
      CodeLabelKeeps(model, a, b, skip);
      GetLabel();
      pc := Emit(OpLoadBool(a, b, skip));
    }

    method SetReloc(pc: int, reg: int)
      requires Valid() && pc == |code| - 1 >= 0 && IsValueInstr(model.code[pc])
      modifies this
      ensures Matched() && model == old(model).(code := CodeGen.SetReloc(old(model.code), pc, reg))
      ensures |code| == |old(code)| && forall j :: 0 <= j < |code| - 1 ==> code[j] == old(code)[j]
    {
      ghost var m0 := model.code;
      assert code[pc] == m0[pc];
      code := code[pc := SetA(code[pc], reg)];
      model := model.(code := CodeGen.SetReloc(model.code, pc, reg));
      LastChanged(old(code), m0, model.jpc, jpc, code[pc]);
    }

    // discharge2reg, once variables are discharged
    method LoadInto(kind: Kind, reg: int, ghost a: Exp)
      requires Valid() && Usable(model, a, reg) && kind == a.k && !kind.VLocal? && !kind.VUpval? && !kind.VJmp?
      modifies this
      ensures Valid() && model == Load(old(model), kind, reg)
      ensures LinksKept(old(model), old(code), code, [])
    {
      LoadInv(model, a, reg, reg);
      match kind {
        case VNil => Nil(reg);
        case VFalse => var _ := Emit(OpLoadBool(reg, false, false));
        case VTrue => var _ := Emit(OpLoadBool(reg, true, false));
        case VK(i) => var _ := Emit(OpLoadK(reg, i));
        case VKNum(n) => var i := AddK(Num(n)); var _ := Emit(OpLoadK(reg, i));
        case VReloc(pc) => SetReloc(pc, reg);
        case VNonreloc(r) => if reg != r { var _ := Emit(OpMove(reg, r)); }
      }
    }

    method Discharge2Reg(e: ExpDesc, reg: int, ghost a: Exp) returns (e': ExpDesc, ghost a': Exp)
      requires Valid() && Usable(model, a, reg) && Denotes(e, a)
      modifies this
      ensures Valid() && (model, a') == CodeGen.Discharge2Reg(old(model), a, reg) && Denotes(e', a')
      ensures LinksKept(old(model), old(code), code, [])
    {
      Discharge2RegInv(model, a, reg, reg);
      DischargeVarsInv(model, a, reg);
      e', a' := DischargeVars(e, a, reg);
      if !e'.k.VJmp? {
        ghost var m1, c1 := model, code;
        LoadInto(e'.k, reg, a');
        ListStays(m1, c1, code, [], e'.t, a'.t);
        ListStays(m1, c1, code, [], e'.f, a'.f);
        LinksTrans(old(model), old(code), m1, c1, code, [], [], []);
        e', a' := e'.(k := VNonreloc(reg)), a'.(k := VNonreloc(reg));
      }
    }

    method Discharge2AnyReg(e: ExpDesc, ghost a: Exp, ghost f0: int) returns (e': ExpDesc, ghost a': Exp)
      requires Valid() && ExpInv(model, a, f0) && Denotes(e, a) && !a.k.VJmp?
      modifies this
      ensures Valid() && (model, a') == CodeGen.Discharge2AnyReg(old(model), a) && Denotes(e', a')
      ensures LinksKept(old(model), old(code), code, [])
    {
      hide Inv, ExpInv, Usable;
      e', a' := e, a;
      if !e.k.VNonreloc? {
        ReservedUsable(model, a, f0);
        ReserveRegs(1);
        e', a' := Discharge2Reg(e, freereg - 1, a);
      }
    }

    // The labels of exp2reg.
    method LoadLabels(e: ExpDesc, reg: int, ghost a: Exp) returns (pf: int, pt: int)
      requires Valid() && e.k == a.k && (a.k.VJmp? ==> model.jpc == [])
      modifies this
      ensures Valid() && (model, pf, pt) == CodeGen.LoadLabels(old(model), a, reg)
      ensures LinksKept(old(model), old(code), code, [])
    {
      hide Inv, Frame, CodeGen.PatchListAux, Threads, LinksKept, TestsPaired;
      LoadLabelsShape(model, a, reg);
      LoadLabelsInv(model, CodeGen.LoadLabels(model, a, reg).0, if a.k.VJmp? then [] else [OpJmp(NO_JUMP)], reg);
      InvParts(model);
      var fj := NO_JUMP;
      ghost var l := [];
      if !e.k.VJmp? {
        JumpKeeps(model);
        fj, l := Jump();
      }
      label Jumped:
      pf := CodeLabel(reg, false, true);
      pt := CodeLabel(reg, true, false);
      assert forall j :: 0 <= j < |old@Jumped(code)| ==> code[j] == old@Jumped(code)[j];
      ThreadsSame(old@Jumped(code), code, fj, l);
      PatchToHere(fj, l);
      KeptBelow(old(model), old(code), code);
    }

    method ExpToReg(e0: ExpDesc, reg: int, ghost a0: Exp) returns (e': ExpDesc, ghost a': Exp)
      requires Valid() && Usable(model, a0, reg) && Denotes(e0, a0)
      modifies this
      ensures Valid() && (model, a') == Exp2Reg(old(model), a0, reg) && Denotes(e', a')
      ensures LinksKept(old(model), old(code), code, Own(a0))
    {
      hide Inv, Frame, LinksKept, CodeGen.Discharge2Reg, Exp2RegLists, KindInv, ListsInv, ToPatch;
      Exp2RegInv(model, a0, reg, reg);
      Discharge2RegInv(model, a0, reg, reg);
      var e;
      ghost var a;
      e, a := Discharge2Reg(e0, reg, a0);
      ghost var m1, c1 := model, code;
      var t;
      ghost var at;
      t, at := JoinOwnJump(e, a, reg);
      ghost var c2 := code;
      CloseLists(e, t, reg, a, at);
      JoinedLinks(old(model), old(code), m1, c1, c2, code, a0, a, at);
      e', a' := ExpDesc(VNonreloc(reg), NO_JUMP, NO_JUMP), Exp(VNonreloc(reg), [], []);
    }

    method JoinOwnJump(e: ExpDesc, ghost a: Exp, ghost f0: int) returns (t: int, ghost at: seq<int>)
      requires Valid() && Denotes(e, a) && ListsInv(model, a)
      requires a.k.VJmp? ==> KindInv(model, a, f0)
      modifies this`code
      ensures Valid() && Threads(code, t, at) && Threads(code, e.f, a.f)
      ensures at == (if a.k.VJmp? then a.t + [a.k.pc] else a.t) && ToPatch(model, a, at)
      ensures |code| == |old(code)| && forall j :: 0 <= j < |code| && j !in a.t ==> code[j] == old(code)[j]
    {
      t, at := e.t, a.t;
      if e.k.VJmp? {
        t := Concat(e.t, e.k.pc, a.t, [e.k.pc]);
        at := a.t + [e.k.pc];
        DistinctConcat(a.t, [e.k.pc]);
        ThreadsSame(old(code), code, e.f, a.f);
      }
    }

    // The jumps of exp2reg, once the descriptor is discharged.
    method CloseLists(e: ExpDesc, t: int, reg: int, ghost a: Exp, ghost at: seq<int>)
      requires Valid() && ToPatch(model, a, at) && e.k == a.k
      requires Threads(code, t, at) && Threads(code, e.f, a.f)
      modifies this
      ensures Valid() && model == Exp2RegLists(old(model), a, at, reg)
      ensures LinksKept(old(model), old(code), code, at + a.f)
    {
      hide Inv, Frame, Exp2RegLists, CodeGen.LoadLabels, CodeGen.PatchListAux, NeedValue, PendingList, Distinct;
      ToPatchLists(model, a, at);
      HeadsDiffer(code, e.f, a.f, t, at);
      Exp2RegListsInv(model, a, at, reg);
      Exp2RegListsWhole(model, a, at, reg);
      if t != e.f {  // hasjumps
        LandLists(e, t, reg, a, at);
      }
    }

    method LandLists(e: ExpDesc, t: int, reg: int, ghost a: Exp, ghost at: seq<int>)
      requires Valid() && ToPatch(model, a, at) && e.k == a.k && (at != [] || a.f != [])
      requires Threads(code, t, at) && Threads(code, e.f, a.f)
      modifies this
      ensures Matched() && model == Exp2RegLists(old(model), a, at, reg)
      ensures LinksKept(old(model), old(code), code, at + a.f)
    {
      hide Inv, Exp2RegLists, CodeGen.LoadLabels, CodeGen.PatchListAux, NeedValue, PendingList, TestsPaired,
        Disjoint, Distinct, Link;
      ToPatchLists(model, a, at);
      ThreadsIn(code, t, at);
      ThreadsIn(code, e.f, a.f);
      Exp2RegListsWhole(model, a, at, reg);
      var pf, pt := NO_JUMP, NO_JUMP;
      var need := ProbeValues(t, at);
      if !need {
        need := ProbeValues(e.f, a.f);
      }
      ghost var m0, c0 := model, code;
      if need {
        LoadLabelsKeep(m0, a, at, reg);
        pf, pt := LoadLabels(e, reg, a);
        ListStays(m0, c0, code, [], t, at);
        ListStays(m0, c0, code, [], e.f, a.f);
      }
      GetLabel();
      PatchBoth(e.f, t, |code|, reg, pf, pt, a.f, at);
      forall j | Pending(m0.code, j) && j !in m0.jpc && j !in at + a.f
        ensures j < |c0| && j < |code| && code[j] == c0[j]
      {
        assert j !in at && j !in a.f;
      }
    }

    method PatchBoth(f: int, t: int, final: int, reg: int, pf: int, pt: int, ghost lf: seq<int>, ghost lt: seq<int>)
      requires Matched() && TestsPaired(model.code) && PendingList(model.code, lf) && PendingList(model.code, lt)
      requires Threads(code, f, lf) && Threads(code, t, lt) && Disjoint(lf, lt)
      requires PendingList(model.code, model.jpc) && Disjoint(lf, model.jpc) && Disjoint(lt, model.jpc)
      modifies this`code, this`model
      ensures Matched() && model == old(model).(code :=
        CodeGen.PatchListAux(CodeGen.PatchListAux(old(model.code), lf, final, reg, pf), lt, final, reg, pt))
      ensures |code| == |old(code)|
      ensures forall j :: Pending(old(model.code), j) && j !in lf && j !in lt ==> code[j] == old(code)[j]
    {
      hide CodeGen.PatchListAux, TestsPaired;
      FirstPatched(model.code, lf, lt, final, reg, pf);
      PatchListAux(f, final, reg, pf, lf);
      ThreadsSame(old(code), code, t, lt);
      PatchListAux(t, final, reg, pt, lt);
      ThreadsSame(old(code), code, jpc, model.jpc);
    }

    method Exp2NextReg(e0: ExpDesc, ghost a0: Exp, ghost f0: int) returns (e': ExpDesc, ghost a': Exp)
      requires Valid() && ExpInv(model, a0, f0) && Denotes(e0, a0)
      modifies this
      ensures Valid() && (model, a') == CodeGen.Exp2NextReg(old(model), a0) && Denotes(e', a')
      ensures LinksKept(old(model), old(code), code, Own(a0))
    {
      hide CodeGen.DischargeVars, Exp2Reg, Inv, Frame, Usable, LinksKept;
      DischargeVarsInv(model, a0, f0);
      var e;
      ghost var a;
      e, a := DischargeVars(e0, a0, f0);
      ghost var m1, c1 := model, code;
      ReservedReg(m1, a, f0);
      FreeExp(e, a);
      ReserveRegs(1);
      ghost var m2 := model;
      e', a' := ExpToReg(e, freereg - 1, a);
      SameJumps(m1, m2, c1, code, Own(a));
      LinksTrans(old(model), old(code), m1, c1, code, [], Own(a), Own(a0));
    }

    method Exp2AnyReg(e0: ExpDesc, ghost a0: Exp, ghost f0: int) returns (e': ExpDesc, ghost a': Exp)
      requires Valid() && (ExpInv(model, a0, f0) || (Ready(a0) && a0.k.VNonreloc?)) && Denotes(e0, a0)
      modifies this
      ensures Valid() && (model, a') == CodeGen.Exp2AnyReg(old(model), a0) && Denotes(e', a')
      ensures LinksKept(old(model), old(code), code, Own(a0))
    {
      hide Inv, Frame, CodeGen.DischargeVars, Exp2Reg, CodeGen.Exp2NextReg;
      if !Ready(a0) { DischargeVarsInv(model, a0, f0); } else { ReadyStays(model, a0); }
      var e;
      ghost var a;
      e, a := DischargeVars(e0, a0, f0);
      ghost var m1, c1 := model, code;
      NoListNoJump(code, e, a);
      if e.k.VNonreloc? {
        if e.t == e.f {
          return e, a;
        }
        if e.k.reg >= nactvar {
          e', a' := ExpToReg(e, e.k.reg, a);
          LinksTrans(old(model), old(code), m1, c1, code, [], Own(a), Own(a0));
          return;
        }
      }
      e', a' := Exp2NextReg(e, a, f0);
      LinksTrans(old(model), old(code), m1, c1, code, [], Own(a), Own(a0));
    }

    method Exp2Val(e: ExpDesc, ghost a: Exp, ghost f0: int) returns (e': ExpDesc, ghost a': Exp)
      requires Valid() && (ExpInv(model, a, f0) || Ready(a)) && Denotes(e, a)
      modifies this
      ensures Valid() && (model, a') == CodeGen.Exp2Val(old(model), a) && Denotes(e', a')
      ensures LinksKept(old(model), old(code), code, Own(a))
    {
      hide CodeGen.Exp2AnyReg, CodeGen.DischargeVars, Inv, Frame;
      NoListNoJump(code, e, a);
      if e.t != e.f {
        e', a' := Exp2AnyReg(e, a, f0);
      } else {
        e', a' := DischargeVars(e, a, f0);
      }
    }

    method Exp2RK(e0: ExpDesc, ghost a0: Exp, ghost f0: int) returns (e': ExpDesc, o: RK, ghost a': Exp)
      requires Valid() && (ExpInv(model, a0, f0) || Ready(a0)) && Denotes(e0, a0)
      modifies this
      ensures Valid() && (model, a', o) == CodeGen.Exp2RK(old(model), a0) && Denotes(e', a')
      ensures LinksKept(old(model), old(code), code, Own(a0))
    {
      hide CodeGen.Exp2AnyReg, CodeGen.Exp2Val, Inv, Frame;
      if !Ready(a0) { Exp2ValInv(model, a0, f0); } else { ReadyStays(model, a0); }
      e', a' := Exp2Val(e0, a0, f0);
      ghost var m1, c1 := model, code;
      match e'.k {
        case VKNum(n) =>
          if |k| <= MAXINDEXRK { e', o, a' := ConstRK(e', a', f0); return; }
        case VTrue =>
          if |k| <= MAXINDEXRK { e', o, a' := ConstRK(e', a', f0); return; }
        case VFalse =>
          if |k| <= MAXINDEXRK { e', o, a' := ConstRK(e', a', f0); return; }
        case VNil =>
          if |k| <= MAXINDEXRK { e', o, a' := ConstRK(e', a', f0); return; }
        case VK(i) =>
          if i <= MAXINDEXRK { o := K(i); return; }
        case _ =>
      }
      ghost var a := a';
      e', a' := Exp2AnyReg(e', a', f0);
      o := R(if e'.k.VNonreloc? then e'.k.reg else 0);
      LinksTrans(old(model), old(code), m1, c1, code, Own(a0), Own(a), Own(a0));
    }

    // constant fits in RK operand
    method ConstRK(e: ExpDesc, ghost a: Exp, ghost f0: int) returns (e': ExpDesc, o: RK, ghost a': Exp)
      requires Valid() && ExpInv(model, a, f0) && Denotes(e, a) && IsConst(e.k)
      modifies this`k, this`model
      ensures Valid() && code == old(code) && Denotes(e', a')
      ensures var (m1, i) := CodeGen.AddK(old(model), ConstValue(a.k)); model == m1 && a' == a.(k := VK(i)) && o == K(i)
    {
      AddKInv(model, ConstValue(e.k));
      var i := AddK(ConstValue(e.k));
      e', o, a' := e.(k := VK(i)), K(i), a.(k := VK(i));
    }

    // ----- conditional jumps -----

    method InvertJump(pc: int, ghost a: Exp, ghost f0: int)
      requires Valid() && ExpInv(model, a, f0) && a.k == VJmp(pc)
      modifies this
      ensures Valid() && model == CodeGen.InvertJump(old(model), pc)
      ensures |code| == |old(code)| && forall j :: Pending(old(model.code), j) ==> code[j] == old(code)[j]
    {
      InvertJumpInv(model, a, f0);
      var c := GetJumpControl(pc);
      assert IsTest(code[pc - 1]) && code[pc - 1] == model.code[pc - 1];
      code := code[c := InvertTest(code[c])];
      model := CodeGen.InvertJump(model, pc);
      ThreadsSame(old(code), code, jpc, model.jpc);
    }

    method JumpOnCond(e: ExpDesc, cond: bool, ghost a: Exp, ghost f0: int) returns (j: int, ghost l: seq<int>)
      requires Valid() && ExpInv(model, a, f0) && Denotes(e, a) && !a.k.VJmp?
      modifies this
      ensures Valid() && (model, l) == CodeGen.JumpOnCond(old(model), a, cond) && Threads(code, j, l)
      ensures LinksKept(old(model), old(code), code, [])
    {
      hide Inv, CodeGen.Discharge2AnyReg, CodeGen.CondJump, ExpInv, Frame, Threads;
      JumpOnCondInv(model, a, cond, f0);
      JumpedIsInv(model, CodeGen.JumpOnCond(model, a, cond).0, CodeGen.JumpOnCond(model, a, cond).1, f0);
      if e.k.VReloc? {
        RelocPlace(model, code, a, f0);
        var ie := code[e.k.pc];
        if ie.OpNot? {
          j, l := JumpOnNot(OpTest(ie.b, !cond), a, f0);
          return;
        }
      }
      Discharge2AnyRegInv(model, a, f0);
      var e';
      ghost var a';
      e', a' := Discharge2AnyReg(e, a, f0);
      ghost var m1, c1 := model, code;
      AnyRegTop(m1, a', f0);
      FreeExp(e', a');
      ghost var m2 := model;
      j, l := CondJump(OpTestSet(NO_REG, if e'.k.VNonreloc? then e'.k.reg else 0, cond));
      SameJumps(m1, m2, c1, code, []);
      LinksTrans(old(model), old(code), m1, c1, code, [], [], []);
    }

    method JumpOnNot(i: Instr, ghost a: Exp, ghost f0: int) returns (j: int, ghost l: seq<int>)
      requires Valid() && ExpInv(model, a, f0) && a.k.VReloc? && IsTest(i)
      modifies this
      ensures Matched() && Threads(code, j, l)
      ensures (model, l) == CodeGen.CondJump(old(model).(code := old(model.code)[..|old(code)| - 1]), i)
      ensures LinksKept(old(model), old(code), code, [])
    {
      hide PendingList, FreeAfter, LandsBy;
      NotJumpInv(model, a, i, f0);
      code := code[..|code| - 1];
      model := model.(code := model.code[..|model.code| - 1]);
      j, l := CondJump(i);
    }

    // The jump of luaK_goiftrue.
    method JumpWhenFalse(e: ExpDesc, ghost a: Exp, ghost f0: int) returns (j: int, ghost l: seq<int>)
      requires Valid() && ExpInv(model, a, f0) && Denotes(e, a) && !a.k.VLocal? && !a.k.VUpval?
      modifies this
      ensures Valid() && (model, l) == JumpIfFalse(old(model), a) && Threads(code, j, l)
      ensures LinksKept(old(model), old(code), code, l)
    {
      hide Inv, CodeGen.JumpOnCond, GoJumpInv, CodeGen.InvertJump, ExpInv;
      JumpIfFalseInv(model, a, f0);
      GoJumpIsInv(model, a, JumpIfFalse(model, a).0, JumpIfFalse(model, a).1, f0);
      j, l := NO_JUMP, [];
      match e.k {
        case VK(_) =>
        case VKNum(_) =>
        case VTrue =>
        case VFalse => InvParts(model); JumpInv(model); j, l := Jump();
        case VJmp(pc) =>
          KeptPending(model, a, f0);
          InvertJump(pc, a, f0);
          ThreadsSame(old(code), code, pc, [pc]);
          j, l := pc, [pc];
        case VNil => j, l := JumpOnCond(e, false, a, f0);
        case VReloc(_) => j, l := JumpOnCond(e, false, a, f0);
        case VNonreloc(_) => j, l := JumpOnCond(e, false, a, f0);
      }
    }

    // The jump of luaK_goiffalse.
    method JumpWhenTrue(e: ExpDesc, ghost a: Exp, ghost f0: int) returns (j: int, ghost l: seq<int>)
      requires Valid() && ExpInv(model, a, f0) && Denotes(e, a) && !a.k.VLocal? && !a.k.VUpval?
      modifies this
      ensures Valid() && (model, l) == JumpIfTrue(old(model), a) && Threads(code, j, l)
      ensures LinksKept(old(model), old(code), code, l)
    {
      hide Inv, CodeGen.JumpOnCond, GoJumpInv, ExpInv;
      JumpIfTrueInv(model, a, f0);
      GoJumpIsInv(model, a, JumpIfTrue(model, a).0, JumpIfTrue(model, a).1, f0);
      j, l := NO_JUMP, [];
      match e.k {
        case VNil =>
        case VFalse =>
        case VTrue => InvParts(model); JumpInv(model); j, l := Jump();
        case VJmp(pc) => PendingInCode(model, code); j, l := pc, [pc];
        case VK(_) => j, l := JumpOnCond(e, true, a, f0);
        case VKNum(_) => j, l := JumpOnCond(e, true, a, f0);
        case VReloc(_) => j, l := JumpOnCond(e, true, a, f0);
        case VNonreloc(_) => j, l := JumpOnCond(e, true, a, f0);
      }
    }

    method GoIfTrue(e0: ExpDesc, ghost a0: Exp, ghost f0: int) returns (e': ExpDesc, ghost a': Exp)
      requires Valid() && ExpInv(model, a0, f0) && Denotes(e0, a0)
      modifies this
      ensures Valid() && (model, a') == CodeGen.GoIfTrue(old(model), a0)
      ensures e'.k == a'.k && e'.t == NO_JUMP && Threads(code, e'.f, a'.f)
      ensures LinksKept(old(model), old(code), code, Own(a0))
    {
      hide CodeGen.DischargeVars, JumpIfFalse, Inv, Frame;
      GoIfTrueInv(model, a0, f0);
      DischargeVarsInv(model, a0, f0);
      var e;
      ghost var a;
      e, a := DischargeVars(e0, a0, f0);
      ghost var m1, c1 := model, code;
      JumpIfFalseInv(m1, a, f0);
      var j;
      ghost var l;
      j, l := JumpWhenFalse(e, a, f0);
      ghost var m2, c2 := model, code;
      var f := GoOn(e.f, e.t, j, a, l, a.f, a.t, m1, c1, f0);
      GoLinks(old(model), old(code), m1, c1, c2, code, a0, a, l);
      e', a' := ExpDesc(e.k, NO_JUMP, f), Exp(a.k, [], a.f + l);
    }

    method GoIfFalse(e0: ExpDesc, ghost a0: Exp, ghost f0: int) returns (e': ExpDesc, ghost a': Exp)
      requires Valid() && ExpInv(model, a0, f0) && Denotes(e0, a0)
      modifies this
      ensures Valid() && (model, a') == CodeGen.GoIfFalse(old(model), a0)
      ensures e'.k == a'.k && e'.f == NO_JUMP && Threads(code, e'.t, a'.t)
      ensures LinksKept(old(model), old(code), code, Own(a0))
    {
      hide CodeGen.DischargeVars, JumpIfTrue, Inv, Frame;
      GoIfFalseInv(model, a0, f0);
      DischargeVarsInv(model, a0, f0);
      var e;
      ghost var a;
      e, a := DischargeVars(e0, a0, f0);
      ghost var m1, c1 := model, code;
      JumpIfTrueInv(m1, a, f0);
      var j;
      ghost var l;
      j, l := JumpWhenTrue(e, a, f0);
      ghost var m2, c2 := model, code;
      var t := GoOn(e.t, e.f, j, a, l, a.t, a.f, m1, c1, f0);
      GoLinks(old(model), old(code), m1, c1, c2, code, a0, a, l);
      e', a' := ExpDesc(e.k, t, NO_JUMP), Exp(a.k, a.t + l, []);
    }

    // Insert the last jump in the list kept; the other list comes to here.
    method GoOn(keep: int, drop: int, j: int, ghost a: Exp, ghost l: seq<int>, ghost lk: seq<int>, ghost ld: seq<int>,
                ghost m1: FS, ghost c1: seq<Instr>, ghost f0: int) returns (r: int)
      requires Valid() && GoJumpInv(m1, a, model, l, f0) && ListsInv(m1, a) && LinksKept(m1, c1, code, l)
      requires (lk == a.f && ld == a.t) || (lk == a.t && ld == a.f)
      requires Threads(c1, keep, lk) && Threads(c1, drop, ld) && Threads(code, j, l)
      modifies this
      ensures Valid() && model == CodeGen.PatchToHere(old(model), ld) && Threads(code, r, lk + l)
      ensures |code| == |old(code)|
      ensures forall i :: 0 <= i < |code| && i !in lk && i !in old(model.jpc) ==> code[i] == old(code)[i]
    {
      hide Threads, Distinct;
      GoLists(m1, a, model, l, f0);
      ListStays(m1, c1, code, l, keep, lk);
      ListStays(m1, c1, code, l, drop, ld);
      GoInv(m1, a, model, l, lk, ld, f0);
      r := Concat(keep, j, lk, l);
      ThreadsSame(old(code), code, drop, ld);
      ThreadsSame(old(code), code, jpc, model.jpc);
      label Joined:
      PatchToHere(drop, ld);
      DistinctConcat(lk, l);
      ThreadsSame(old@Joined(code), code, r, lk + l);
    }

    // ----- operators -----

    method Negate(e: ExpDesc, ghost a: Exp, ghost f0: int) returns (kind: Kind)
      requires Valid() && ExpInv(model, a, f0) && Denotes(e, a) && !a.k.VLocal? && !a.k.VUpval?
      modifies this
      ensures Valid() && (model, kind) == CodeGen.Negate(old(model), a)
      ensures LinksKept(old(model), old(code), code, if a.k.VJmp? then [a.k.pc] else [])
      ensures a.k.VJmp? ==> |code| == |old(code)| && forall j :: Pending(old(model.code), j) ==> code[j] == old(code)[j]
    {
      hide Inv, CodeGen.InvertJump, CodeGen.Discharge2AnyReg, ExpInv, Stepped, CodeGen.Emit, Frame;
      NegateInv(model, a, f0);
      SteppedIsInv(model, Own(a), CodeGen.Negate(model, a).0, a.(k := CodeGen.Negate(model, a).1), f0);
      kind := e.k;
      match e.k {
        case VNil => kind := VTrue;
        case VFalse => kind := VTrue;
        case VK(_) => kind := VFalse;
        case VKNum(_) => kind := VFalse;
        case VTrue => kind := VFalse;
        case VJmp(pc) =>
          KeptPending(model, a, f0);
          InvertJump(pc, a, f0);
        case VReloc(_) => kind := NegateValue(e, a, f0);
        case VNonreloc(_) => kind := NegateValue(e, a, f0);
      }
    }

    method NegateValue(e: ExpDesc, ghost a: Exp, ghost f0: int) returns (kind: Kind)
      requires Valid() && ExpInv(model, a, f0) && Denotes(e, a) && !a.k.VJmp?
      modifies this
      ensures Matched()
      ensures var (m1, a1) := CodeGen.Discharge2AnyReg(old(model), a); var m2 := CodeGen.FreeExp(m1, a1);
              model == CodeGen.Emit(m2, OpNot(0, RegOf(a1))) && kind == VReloc(|m2.code|)
      ensures LinksKept(old(model), old(code), code, [])
    {
      hide Inv, CodeGen.Discharge2AnyReg, ExpInv, CodeGen.Emit, Frame;
      Discharge2AnyRegInv(model, a, f0);
      var e';
      ghost var a';
      e', a' := Discharge2AnyReg(e, a, f0);
      ghost var m1, c1 := model, code;
      AnyRegTop(m1, a', f0);
      FreeExp(e', a');
      ghost var m2 := model;
      InvParts(m2);
      var pc := Emit(OpNot(0, if e'.k.VNonreloc? then e'.k.reg else 0));
      kind := VReloc(pc);
      SameJumps(m1, m2, c1, code, []);
      LinksTrans(old(model), old(code), m1, c1, code, [], [], []);
    }

    method CodeNot(e0: ExpDesc, ghost a0: Exp, ghost f0: int) returns (e': ExpDesc, ghost a': Exp)
      requires Valid() && ExpInv(model, a0, f0) && Denotes(e0, a0)
      modifies this
      ensures Valid() && (model, a') == CodeGen.CodeNot(old(model), a0) && Denotes(e', a')
      ensures LinksKept(old(model), old(code), code, Own(a0))
    {
      hide Inv, CodeGen.DischargeVars, CodeGen.Negate, Frame, ExpInv, CodeGen.RemoveValues, FuncState.Matched;
      CodeNotInv(model, a0, f0);
      SteppedIsInv(model, Own(a0), CodeGen.CodeNot(model, a0).0, CodeGen.CodeNot(model, a0).1, f0);
      ExpInvAfter(model, a0, f0);
      DischargeVarsInv(model, a0, f0);
      var e;
      ghost var a;
      e, a := DischargeVars(e0, a0, f0);
      ghost var m1, c1 := model, code;
      NegateInv(m1, a, f0);
      var kind := Negate(e, a, f0);
      ghost var m2, c2 := model, code;
      NegatedLists(m1, c1, a, m2, c2, kind, e, f0);
      RemoveBoth(e.t, e.f, a.t, a.f);
      ThreadsSame(c2, code, e.t, a.t);
      ThreadsSame(c2, code, e.f, a.f);
      if kind.VJmp? { ThreadsSame(c2, code, kind.pc, [kind.pc]); }
      RemovedLinks(m1, c1, a, kind, m2, c2, code, f0);
      LinksTrans(old(model), old(code), m1, c1, code, [], Own(a), Own(a0));
      e', a' := ExpDesc(kind, e.f, e.t), Exp(kind, a.f, a.t);
    }

    method RemoveBoth(t: int, f: int, ghost lt: seq<int>, ghost lf: seq<int>)
      requires Matched() && PendingList(model.code, lt) && PendingList(model.code, lf)
      requires PendingList(model.code, model.jpc)
      requires Threads(code, t, lt) && Threads(code, f, lf)
      modifies this`code, this`model
      ensures Matched() && |code| == |old(code)|
      ensures model == old(model).(code := CodeGen.RemoveValues(CodeGen.RemoveValues(old(model.code), lt), lf))
      ensures forall j :: Pending(old(model.code), j) ==> 0 <= j < |code| && code[j] == old(code)[j]
    {
      hide CodeGen.RemoveValues, Distinct;
      ghost var m1 := model.code;
      RemoveValues(t, lt);
      RemoveKeeps(m1, lt);
      ThreadsSame(old(code), code, f, lf);
      ghost var c1, m2 := code, model.code;
      RemoveValues(f, lf);
      RemoveKeeps(m2, lf);
      ThreadsSame(old(code), code, jpc, model.jpc);
    }

    // Gives back the registers of two operands, the upper one first.
    method FreeBoth(e1: ExpDesc, e2: ExpDesc, o1: RK, o2: RK, ghost a1: Exp, ghost a2: Exp, ghost f0: int)
      requires Valid() && e1.k == a1.k && e2.k == a2.k
      requires Operand(model, a1, o1) && Operand(model, a2, o2) && TwoOperands(model, a1, a2, f0)
      modifies this`freereg, this`model
      ensures Valid() && model == CodeGen.FreeBoth(old(model), a1, a2, o1, o2) && model == old(model).(freereg := f0)
    {
      FreeBothRegs(model, a1, a2, o1, o2, f0);
      if Above(o1, o2) {
        FreeExp(e1, a1);
        FreeExp(e2, a2);
      } else {
        FreeExp(e2, a2);
        FreeExp(e1, a1);
      }
    }

    method CodeArith(op: ArithOp, e1: ExpDesc, e2: ExpDesc, ghost a1: Exp, ghost a2: Exp, ghost f0: int, ghost f1: int)
      returns (e': ExpDesc, ghost a': Exp)
      requires Valid() && Waiting(model, a1, f0, f1) && ExpInv(model, a2, f1) && Denotes(e1, a1) && Denotes(e2, a2)
      modifies this
      ensures Valid() && (model, a') == CodeGen.CodeArith(ops, old(model), op, a1, a2) && Denotes(e', a')
      ensures LinksKept(old(model), old(code), code, Own(a2))
    {
      hide Inv, ExpInv, CodeGen.Exp2RK, CodeGen.FreeBoth, CodeGen.Emit, Frame, LinksKept, Stepped;
      CodeArithInv(ops, model, op, a1, a2, f0, f1);
      SteppedIsInv(model, Own(a2), CodeGen.CodeArith(ops, model, op, a1, a2).0,
                   CodeGen.CodeArith(ops, model, op, a1, a2).1, f0);
      ListsOf(code, e1, a1);
      ExpLists(model, a2, f1);
      NoListNoJump(code, e2, a2);
      if e1.k.VKNum? && e1.t == NO_JUMP && e1.f == NO_JUMP && e2.k.VKNum? && e2.t == NO_JUMP && e2.f == NO_JUMP {
        ListsOf(code, e2, a2);
        var v1, v2 := e1.k.nval, e2.k.nval;
        if !((op.DIV? || op.MOD?) && v2 == 0.0) {
          var r := ops.arith(op, v1, v2);
          if !ops.isNaN(r) {
            e', a' := e1.(k := VKNum(r)), a1.(k := VKNum(r));
            LinksRefl(model, code, Own(a2));
            return;
          }
        }
      }
      NotFolded(ops, op, e1, a1, e2, a2, code);
      e', a' := ArithOperands(op, e1, e2, a1, a2, f0, f1);
    }

    method ArithOperands(op: ArithOp, e1: ExpDesc, e2: ExpDesc, ghost a1: Exp, ghost a2: Exp, ghost f0: int,
        ghost f1: int)
      returns (e': ExpDesc, ghost a': Exp)
      requires Valid() && Waiting(model, a1, f0, f1) && ExpInv(model, a2, f1) && Denotes(e1, a1) && Denotes(e2, a2)
      requires ConstFolding(ops, op, a1, a2).None?
      modifies this
      ensures Matched() && (model, a') == CodeGen.CodeArith(ops, old(model), op, a1, a2) && Denotes(e', a')
      ensures LinksKept(old(model), old(code), code, Own(a2))
    {
      hide Inv, ExpInv, CodeGen.Exp2RK, CodeGen.FreeBoth, CodeGen.Emit, ConstFolding, TwoOperands, Operand, LinksKept;
      var e1', o1, e2', o2;
      ghost var a1', a2';
      e1', o1, e2', o2, a1', a2' := SecondThenFirst(e1, e2, a1, a2, f0, f1);
      ghost var m2, c2 := model, code;
      FreeBoth(e1', e2', o1, o2, a1', a2', f0);
      ghost var m3 := model;
      InvParts(m3);
      var pc := Emit(OpArith(op, 0, o1, o2));
      SameJumps(m2, m3, c2, code, []);
      LinksThen(old(model), old(code), m2, c2, code, Own(a2));
      e', a' := e1'.(k := VReloc(pc)), a1'.(k := VReloc(pc));
    }

    // Both operands to RK, in the order of codearith.
    method SecondThenFirst(e1: ExpDesc, e2: ExpDesc, ghost a1: Exp, ghost a2: Exp, ghost f0: int, ghost f1: int)
      returns (e1': ExpDesc, o1: RK, e2': ExpDesc, o2: RK, ghost a1': Exp, ghost a2': Exp)
      requires Valid() && Waiting(model, a1, f0, f1) && ExpInv(model, a2, f1) && Denotes(e1, a1) && Denotes(e2, a2)
      modifies this
      ensures Valid() && Denotes(e1', a1') && !HasJumps(a1') && e2'.k == a2'.k && !a1'.k.VJmp?
      ensures var m1 := CodeGen.Exp2RK(old(model), a2).0;
              (m1, a2', o2) == CodeGen.Exp2RK(old(model), a2) && (model, a1', o1) == CodeGen.Exp2RK(m1, a1)
      ensures Operand(model, a1', o1) && Operand(model, a2', o2) && TwoOperands(model, a1', a2', f0)
      ensures Frame(old(model), model, Own(a2)) && LinksKept(old(model), old(code), code, Own(a2))
    {
      hide Inv, ExpInv, CodeGen.Exp2RK, Frame;
      Exp2RKInv(model, a2, f1);
      OperandReady(model, a2, a1, f0, f1);
      e2', o2, a2' := Exp2RK(e2, a2, f1);
      ghost var m1, c1 := model, code;
      FirstOperandInv(m1, a1, f0, f1);
      ListsOf(old(code), e1, a1);
      e1', o1, a1' := Exp2RK(e1, a1, m1.freereg);
      TwoReady(m1, a1, a2', o2, model, a1', o1, f0, f1);
      OperandLinks(old(model), old(code), m1, c1, model, code, a1, a2, f0);
    }

    // codearith for the unary operators
    method CodeUnary(op: UnOpr, e: ExpDesc, ghost a: Exp, ghost f0: int) returns (e': ExpDesc, ghost a': Exp)
      requires Valid() && ExpInv(model, a, f0) && Denotes(e, a) && !op.NotOpr?
      requires op.LenOpr? ==> a.k.VNonreloc? && !HasJumps(a)
      modifies this
      ensures Valid() && (model, a') == CodeGen.CodeUnary(ops, old(model), op, a) && Denotes(e', a')
      ensures LinksKept(old(model), old(code), code, Own(a))
    {
      hide Inv, ExpInv, CodeGen.Exp2RK, CodeGen.Emit, LinksKept, Stepped, Frame;
      CodeUnaryInv(ops, model, op, a, f0);
      SteppedIsInv(model, Own(a), CodeGen.CodeUnary(ops, model, op, a).0, CodeGen.CodeUnary(ops, model, op, a).1, f0);
      ExpLists(model, a, f0);
      NumeralHeads(code, e, a);
      if e.k.VKNum? && e.t == NO_JUMP && e.f == NO_JUMP {  // constfolding, with the numeral 0 as second operand
        if op.MinusOpr? && !ops.isNaN(ops.unm(e.k.nval)) {
          e', a' := e.(k := VKNum(ops.unm(e.k.nval))), a.(k := VKNum(ops.unm(e.k.nval)));
          LinksRefl(model, code, Own(a));
          return;
        }
        if op.BNotOpr? {
          e', a' := e.(k := VKNum(0.0)), a.(k := VKNum(0.0));
          LinksRefl(model, code, Own(a));
          return;
        }
      }
      e', a' := UnaryOperand(op, e, a, f0);
    }

    method UnaryOperand(op: UnOpr, e: ExpDesc, ghost a: Exp, ghost f0: int) returns (e': ExpDesc, ghost a': Exp)
      requires Valid() && ExpInv(model, a, f0) && Denotes(e, a) && !op.NotOpr?
      requires !(op.MinusOpr? && IsNumeral(a) && !ops.isNaN(ops.unm(a.k.nval))) && !(op.BNotOpr? && IsNumeral(a))
      requires op.LenOpr? ==> a.k.VNonreloc? && !HasJumps(a)
      modifies this
      ensures Matched() && (model, a') == CodeGen.CodeUnary(ops, old(model), op, a) && Denotes(e', a')
      ensures LinksKept(old(model), old(code), code, Own(a))
    {
      hide Inv, ExpInv, CodeGen.Exp2RK, CodeGen.Emit, LinksKept, Frame, IsNumeral;
      Exp2RKInv(model, a, f0);
      var e1, o1;
      ghost var a1;
      e1, o1, a1 := Exp2RK(e, a, f0);
      ghost var m1, c1 := model, code;
      SimpleTop(m1, a1, f0);
      FreeExp(e1, a1);
      ghost var m2 := model;
      InvParts(m1);
      var pc := Emit(if op.MinusOpr? then OpUnm(0, o1)
                     else if op.BNotOpr? then OpBNot(0, o1)
                     else OpLen(0, if e1.k.VNonreloc? then e1.k.reg else 0));
      SameJumps(m1, m2, c1, code, []);
      LinksThen(old(model), old(code), m1, c1, code, Own(a));
      e', a' := e1.(k := VReloc(pc)), a1.(k := VReloc(pc));
    }

    method CodeComp(rel: Relation, e1: ExpDesc, e2: ExpDesc, ghost a1: Exp, ghost a2: Exp, ghost f0: int, ghost f1: int)
      returns (e': ExpDesc, ghost a': Exp)
      requires Valid() && Waiting(model, a1, f0, f1) && ExpInv(model, a2, f1) && Denotes(e1, a1) && Denotes(e2, a2)
      requires !a1.k.VKNum?
      modifies this
      ensures Valid() && (model, a') == CodeGen.CodeComp(old(model), rel, a1, a2) && Denotes(e', a')
      ensures LinksKept(old(model), old(code), code, Own(a2))
    {
      hide Inv, ExpInv, CodeGen.Exp2RK, CodeGen.CondJump, LinksKept, Frame, Stepped;
      CodeCompInv(model, rel, a1, a2, f0, f1);
      SteppedIsInv(model, Own(a2), CodeGen.CodeComp(model, rel, a1, a2).0, CodeGen.CodeComp(model, rel, a1, a2).1, f0);
      CompReady(model, a1, a2, f0, f1);
      ListsOf(code, e1, a1);
      var e1', o1, e2', o2;
      ghost var a1', a2';
      e1', o1, a1' := Exp2RK(e1, a1, f1);
      assert model == old(model) && a1' == a1;
      LinksRefl(model, old(code), []);
      ghost var ca := code;
      Exp2RKInv(model, a2, f1);
      FirstKept(old(model), old(code), ca, a1, e2, a2, f1);
      e2', o2, a2' := Exp2RK(e2, a2, f1);
      ghost var m2, c2 := model, code;
      FreeExp(e2', a2');
      FreeExp(e1', a1');
      ghost var m3 := model;
      var j;
      ghost var l;
      j, l := CondJump(CompInstr(rel, o1, o2));
      OwnJump(m3, CompInstr(rel, o1, o2), code, j, l);
      SameJumps(m2, m3, c2, code, []);
      LinksThen(old(model), ca, m2, c2, code, Own(a2));
      LinksFrom(old(model), old(code), ca, code, a1, Own(a2));
      e', a' := e1'.(k := VJmp(j)), a1'.(k := VJmp(l[0]));
    }

    // The right operand of `..', when it is itself a concatenation just emitted.
    method JoinConcat(e1: ExpDesc, pc: int, ghost a1: Exp, ghost a2: Exp, ghost f0: int)
      requires Valid() && ExpInv(model, a2, f0 + 1) && a2.k == VReloc(pc) && model.code[pc].OpConcat?
      requires e1.k == a1.k && a1 == Exp(VNonreloc(f0), [], []) && model.nactvar <= f0
      modifies this
      ensures Matched()
      ensures model == JoinedConcat(old(model), a1, pc)
      ensures |code| == |old(code)| && forall j :: 0 <= j < |code| - 1 ==> code[j] == old(code)[j]
    {
      FreeExp(e1, a1);
      ghost var m0 := model.code;
      assert code[pc] == m0[pc];
      var i := OpConcat(code[pc].a, e1.k.reg, code[pc].c);
      code := code[pc := i];
      model := JoinedConcat(old(model), a1, pc);
      LastChanged(old(code), m0, model.jpc, jpc, i);
    }

    method CodeConcat(e1: ExpDesc, e20: ExpDesc, ghost a1: Exp, ghost a20: Exp, ghost f0: int)
      returns (e': ExpDesc, ghost a': Exp)
      requires Valid() && a1 == Exp(VNonreloc(f0), [], []) && model.nactvar <= f0 && ExpInv(model, a20, f0 + 1)
      requires Denotes(e1, a1) && Denotes(e20, a20)
      modifies this
      ensures Valid() && (model, a') == CodeGen.CodeConcat(old(model), a1, a20) && Denotes(e', a')
      ensures LinksKept(old(model), old(code), code, Own(a20))
    {
      hide Inv, ExpInv, CodeGen.Exp2Val, CodeGen.Exp2NextReg, LinksKept, Frame, Stepped, CodeGen.Emit;
      CodeConcatInv(model, a1, a20, f0);
      SteppedIsInv(model, Own(a20), CodeGen.CodeConcat(model, a1, a20).0, CodeGen.CodeConcat(model, a1, a20).1, f0);
      Exp2ValInv(model, a20, f0 + 1);
      ConcatCases(model, a1, a20, f0);
      ListsOf(code, e1, a1);
      var e2;
      ghost var a2;
      e2, a2 := Exp2Val(e20, a20, f0 + 1);
      ghost var m1, c1 := model, code;
      if e2.k.VReloc? {
        RelocPlace(model, code, a2, f0 + 1);
        if code[e2.k.pc].OpConcat? {
          JoinConcat(e1, e2.k.pc, a1, a2, f0);
          e', a' := e1.(k := e2.k), a1.(k := a2.k);
          JoinLinks(m1, c1, code, a2, f0);
          LinksThen(old(model), old(code), m1, c1, code, Own(a20));
          return;
        }
      }
      e', a' := NewConcat(e1, e2, a1, a2, f0);
      NewConcatFacts(m1, a2, f0);
      LinksTrans(old(model), old(code), m1, c1, code, Own(a20), Own(a2), Own(a20));
    }

    method NewConcat(e1: ExpDesc, e2: ExpDesc, ghost a1: Exp, ghost a2: Exp, ghost f0: int)
      returns (e': ExpDesc, ghost a': Exp)
      requires Valid() && a1 == Exp(VNonreloc(f0), [], []) && model.nactvar <= f0 && ExpInv(model, a2, f0 + 1)
      requires Denotes(e1, a1) && Denotes(e2, a2)
      modifies this
      ensures Matched() && Denotes(e', a')
      ensures var m1 := CodeGen.Exp2NextReg(old(model), a2).0.(freereg := f0);
              model == CodeGen.Emit(m1, OpConcat(0, f0, f0 + 1)) && a' == a1.(k := VReloc(|m1.code|))
      ensures LinksKept(old(model), old(code), code, Own(a2))
    {
      hide Inv, ExpInv, CodeGen.Exp2NextReg, Frame, CodeGen.Emit, CodeGen.FreeBoth;
      Exp2NextRegInv(model, a2, f0 + 1);
      NextRegFree(model, a1, a2, f0);
      ListsOf(code, e1, a1);
      var e2';
      ghost var a2';
      e2', a2' := Exp2NextReg(e2, a2, f0 + 1);
      ghost var m1, c1 := model, code;
      FreeBoth(e1, e2', R(e1.k.reg), R(e2'.k.reg), a1, a2', f0);
      ghost var m2 := model;
      InvParts(m2);
      var pc := Emit(OpConcat(0, e1.k.reg, e2'.k.reg));
      SameJumps(m1, m2, c1, code, []);
      LinksThen(old(model), old(code), m1, c1, code, Own(a2));
      e', a' := e1.(k := VReloc(pc)), a1.(k := VReloc(pc));
    }

    method Prefix(op: UnOpr, e: ExpDesc, ghost a: Exp, ghost f0: int) returns (e': ExpDesc, ghost a': Exp)
      requires Valid() && ExpInv(model, a, f0) && Denotes(e, a)
      modifies this
      ensures Valid() && (model, a') == CodeGen.Prefix(ops, old(model), op, a) && Denotes(e', a')
      ensures LinksKept(old(model), old(code), code, Own(a))
    {
      hide Inv, ExpInv, CodeGen.Exp2AnyReg, CodeGen.CodeUnary, CodeGen.CodeNot, LinksKept, Frame;
      if op.NotOpr? {
        e', a' := CodeNot(e, a, f0);
      } else if op.LenOpr? || e.k.VK? {
        Exp2AnyRegInv(model, a, f0);
        var e1;
        ghost var a1;
        e1, a1 := Exp2AnyReg(e, a, f0);
        ghost var m1, c1 := model, code;
        e', a' := CodeUnary(op, e1, a1, f0);
        LinksTrans(old(model), old(code), m1, c1, code, Own(a), Own(a1), Own(a));
      } else {
        e', a' := CodeUnary(op, e, a, f0);
      }
    }

    method Infix(op: BinOpr, e: ExpDesc, ghost a: Exp, ghost f0: int) returns (e': ExpDesc, ghost a': Exp)
      requires Valid() && ExpInv(model, a, f0) && Denotes(e, a)
      modifies this
      ensures Valid() && (model, a') == CodeGen.Infix(old(model), op, a)
      ensures Threads(code, e'.t, a'.t) && Threads(code, e'.f, a'.f)
      ensures e'.k == a'.k && (!op.AndOpr? && !op.OrOpr? ==> Denotes(e', a'))
      ensures LinksKept(old(model), old(code), code, Own(a))
    {
      hide Inv, ExpInv, CodeGen.Exp2RK, CodeGen.Exp2NextReg, CodeGen.GoIfTrue, CodeGen.GoIfFalse, LinksKept;
      NumeralHeads(code, e, a);
      match op {
        case AndOpr => GoIfTrueInv(model, a, f0); e', a' := GoIfTrue(e, a, f0);
        case OrOpr => GoIfFalseInv(model, a, f0); e', a' := GoIfFalse(e, a, f0);
        case ConcatOpr => e', a' := Exp2NextReg(e, a, f0);
        case ArithOpr(aop) =>
          if !IsBitwise(aop) && e.k.VKNum? && e.t == NO_JUMP && e.f == NO_JUMP {
            e', a' := e, a;
            LinksRefl(model, code, Own(a));
          } else {
            var o;
            e', o, a' := Exp2RK(e, a, f0);
          }
        case CompOpr(_) =>
          var o;
          e', o, a' := Exp2RK(e, a, f0);
      }
    }

    method Posfix(op: BinOpr, e1: ExpDesc, e2: ExpDesc, ghost a1: Exp, ghost a2: Exp, ghost f0: int, ghost f1: int)
      returns (e': ExpDesc, ghost a': Exp)
      requires Valid() && ExpInv(model, a2, f1) && Denotes(e2, a2) && e1.k == a1.k
      requires Threads(code, e1.t, a1.t) && Threads(code, e1.f, a1.f)
      requires if op.AndOpr? then Waits(model, a1.f, a2) else if op.OrOpr? then Waits(model, a1.t, a2)
               else Waiting(model, a1, f0, f1) && (op.ConcatOpr? ==> a1 == Exp(VNonreloc(f0), [], [])) &&
                    (op.CompOpr? ==> !a1.k.VKNum?)
      modifies this
      ensures Matched() && (model, a') == CodeGen.Posfix(ops, old(model), op, a1, a2) && Denotes(e', a')
      ensures LinksKept(old(model), old(code), code,
                        Own(a2) + (if op.AndOpr? then a1.f else if op.OrOpr? then a1.t else []))
    {
      hide Inv, ExpInv, CodeGen.CodeArith, CodeGen.CodeConcat, CodeGen.CodeComp, CodeGen.DischargeVars, Waits;
      match op {
        case AndOpr => e', a' := JoinLists(false, e1.f, e2, a1.f, a2, f1);
        case OrOpr => e', a' := JoinLists(true, e1.t, e2, a1.t, a2, f1);
        case ConcatOpr => e', a' := CodeConcat(e1, e2, a1, a2, f0);
        case ArithOpr(aop) => e', a' := CodeArith(aop, e1, e2, a1, a2, f0, f1);
        case CompOpr(rel) => e', a' := CodeComp(rel, e1, e2, a1, a2, f0, f1);
      }
    }

    method JoinLists(intoT: bool, l1: int, e2: ExpDesc, ghost list: seq<int>, ghost a2: Exp, ghost f1: int)
      returns (e': ExpDesc, ghost a': Exp)
      requires Valid() && ExpInv(model, a2, f1) && Denotes(e2, a2) && Threads(code, l1, list) && Waits(model, list, a2)
      modifies this
      ensures Matched() && Denotes(e', a')
      ensures var (m1, a) := CodeGen.DischargeVars(old(model), a2);
              model == m1 && a' == if intoT then a.(t := a.t + list) else a.(f := a.f + list)
      ensures LinksKept(old(model), old(code), code, Own(a2) + list)
    {
      hide Inv, Frame, ExpInv, Waits, Usable, CodeGen.DischargeVars, LinksKept, Threads, Matches, PendingList, Disjoint;
      ExpInvAfter(model, a2, f1);
      InvParts(model);
      WaitsAfter(model, list, a2, f1);
      var e;
      ghost var a;
      e, a := DischargeVars(e2, a2, f1);
      ghost var m1, c1 := model, code;
      ListStays(old(model), old(code), code, [], l1, list);
      if intoT {
        var t := Concat(e.t, l1, a.t, list);
        e', a' := e.(t := t), a.(t := a.t + list);
        OthersStay(c1, code, a.t, e.f, a.f);
        OthersStay(c1, code, a.t, jpc, model.jpc);
        if e.k.VJmp? { OthersStay(c1, code, a.t, e.k.pc, [e.k.pc]); }
      } else {
        var f := Concat(e.f, l1, a.f, list);
        e', a' := e.(f := f), a.(f := a.f + list);
        OthersStay(c1, code, a.f, e.t, a.t);
        OthersStay(c1, code, a.f, jpc, model.jpc);
        if e.k.VJmp? { OthersStay(c1, code, a.f, e.k.pc, [e.k.pc]); }
      }
      JoinedListLinks(old(model), old(code), m1, c1, code, a2, a, list);
    }
  }

  // ----- end of class -----

  function JoinedConcat(m: FS, a1: Exp, pc: int): FS
    requires 0 <= pc < |m.code| && m.code[pc].OpConcat?
  {
    var m1 := CodeGen.FreeExp(m, a1);
    m1.(code := m1.code[pc := OpConcat(m1.code[pc].a, RegOf(a1), m1.code[pc].c)])
  }

  // Jumps already out of a left operand, apart from those of the right operand.
  ghost predicate Waits(m: FS, list: seq<int>, a: Exp) {
    PendingList(m.code, list) && Disjoint(list, m.jpc) && Disjoint(list, Own(a)) && ListsInv(m, a)
  }

  lemma WaitsAfter(m: FS, list: seq<int>, a: Exp, f0: int)
    requires Inv(m) && ExpInv(m, a, f0) && Waits(m, list, a)
    ensures PendingList(m.code, list) && Disjoint(list, m.jpc) && Disjoint(list, [])
    ensures var (m1, a1) := CodeGen.DischargeVars(m, a);
            PendingList(m1.code, list) && PendingList(m1.code, a1.t) && PendingList(m1.code, a1.f) &&
            Disjoint(a1.t, list) && Disjoint(a1.f, list) && Disjoint(list, m1.jpc) &&
            Disjoint(a1.t, a1.f) && Disjoint(a1.f, a1.t) && Disjoint(m1.jpc, a1.t) && Disjoint(m1.jpc, a1.f) &&
            Frame(m, m1, []) && Own(a1) == Own(a) &&
            (a1.k.VJmp? ==> Disjoint([a1.k.pc], a1.t) && Disjoint([a1.k.pc], a1.f))
  {
    DischargeVarsInv(m, a, f0);
    var m1 := CodeGen.DischargeVars(m, a).0;
    hide CodeGen.DischargeVars;
    ListKept(m, m1, [], list);
  }

  lemma OthersStay(c: seq<Instr>, c': seq<Instr>, changed: seq<int>, head: int, list: seq<int>)
    requires |c'| == |c| && forall j :: 0 <= j < |c| && j !in changed ==> c'[j] == c[j]
    requires Threads(c, head, list) && Disjoint(list, changed)
    ensures Threads(c', head, list)
  {
    ThreadsSame(c, c', head, list);
  }

  lemma JoinedListLinks(m0: FS, c0: seq<Instr>, m1: FS, c1: seq<Instr>, c2: seq<Instr>, a2: Exp, a: Exp, list: seq<int>)
    requires Frame(m0, m1, []) && LinksKept(m0, c0, c1, []) && Own(a) == Own(a2)
    requires |c2| == |c1| && forall j :: 0 <= j < |c1| && j !in a.t && j !in a.f ==> c2[j] == c1[j]
    ensures LinksKept(m0, c0, c2, Own(a2) + list)
  {
    forall j | Pending(m0.code, j) && j !in m0.jpc && j !in Own(a2) + list
      ensures j < |c0| && j < |c2| && c2[j] == c0[j]
    {
      assert SameJump(m0.code, m1.code, j) && j !in Own(a);
    }
  }

  lemma ConcatCases(m: FS, a1: Exp, a20: Exp, f0: int)
    requires Inv(m) && a1 == Exp(VNonreloc(f0), [], []) && m.nactvar <= f0 && ExpInv(m, a20, f0 + 1)
    ensures var (m1, a2) := CodeGen.Exp2Val(m, a20);
            m1.nactvar == m.nactvar && (a2.k.VReloc? ==> 0 <= a2.k.pc < |m1.code|) &&
            if a2.k.VReloc? && m1.code[a2.k.pc].OpConcat? then
              CodeGen.CodeConcat(m, a1, a20) == (JoinedConcat(m1, a1, a2.k.pc), a1.(k := a2.k))
            else
              var m2 := CodeGen.Exp2NextReg(m1, a2).0.(freereg := f0);
              CodeGen.CodeConcat(m, a1, a20) == (CodeGen.Emit(m2, OpConcat(0, f0, f0 + 1)), a1.(k := VReloc(|m2.code|)))
  {
    hide CodeGen.Exp2Val, CodeGen.Exp2NextReg, CodeGen.Emit;
    Exp2ValInv(m, a20, f0 + 1);
    var (m1, a2) := CodeGen.Exp2Val(m, a20);
    Exp2NextRegInv(m1, a2, f0 + 1);
  }

  lemma JoinLinks(m: FS, c: seq<Instr>, c': seq<Instr>, a: Exp, f0: int)
    requires ExpInv(m, a, f0 + 1) && a.k.VReloc? && |c| == |m.code| == |c'|
    requires forall j :: 0 <= j < |c'| - 1 ==> c'[j] == c[j]
    ensures LinksKept(m, c, c', [])
  {
  }

  lemma NewConcatFacts(m: FS, a: Exp, f0: int)
    requires Inv(m) && ExpInv(m, a, f0 + 1)
    ensures Frame(m, CodeGen.Exp2NextReg(m, a).0, Own(a))
  {
    Exp2NextRegInv(m, a, f0 + 1);
    hide CodeGen.Exp2NextReg;
  }

  lemma NextRegFree(m: FS, a1: Exp, a2: Exp, f0: int)
    requires Inv(m) && ExpInv(m, a2, f0 + 1) && a1 == Exp(VNonreloc(f0), [], []) && m.nactvar <= f0
    ensures var (m1, a2') := CodeGen.Exp2NextReg(m, a2);
            Operand(m1, a1, R(f0)) && Operand(m1, a2', R(f0 + 1)) && TwoOperands(m1, a1, a2', f0) &&
            a2'.k == VNonreloc(f0 + 1)
  {
    Exp2NextRegInv(m, a2, f0 + 1);
    hide CodeGen.Exp2NextReg;
  }

  // An operand already where an instruction can use it: nothing is left to do.
  ghost predicate Ready(a: Exp) {
    !HasJumps(a) && (a.k.VNonreloc? || (a.k.VK? && a.k.idx <= MAXINDEXRK))
  }

  lemma ReadyStays(m: FS, a: Exp)
    requires Ready(a)
    ensures CodeGen.DischargeVars(m, a) == (m, a) && CodeGen.Exp2Val(m, a) == (m, a)
    ensures a.k.VNonreloc? ==> CodeGen.Exp2AnyReg(m, a) == (m, a)
  {
  }

  lemma JumpedIsInv(m: FS, m': FS, l: seq<int>, f0: int)
    requires JumpedInv(m, m', l, f0)
    ensures Inv(m')
  {
  }

  lemma RelocPlace(m: FS, c: seq<Instr>, a: Exp, f0: int)
    requires ExpInv(m, a, f0) && a.k.VReloc? && Matches(c, m.code)
    ensures a.k.pc == |c| - 1 >= 0 && c[a.k.pc] == m.code[a.k.pc]
  {
  }

  lemma SteppedIsInv(m: FS, own: seq<int>, m': FS, a: Exp, f0: int)
    requires Stepped(m, own, m', a, f0)
    ensures Inv(m') && ExpInv(m', a, f0) && ListsInv(m', a) && Frame(m, m', own)
  {
  }

  lemma InvParts(m: FS)
    requires Inv(m)
    ensures TestsPaired(m.code) && PendingList(m.code, m.jpc)
  {
  }

  lemma ExpInvAfter(m: FS, a: Exp, f0: int)
    requires Inv(m) && ExpInv(m, a, f0)
    ensures Usable(m, a, f0)
    ensures ExpInv(CodeGen.DischargeVars(m, a).0, CodeGen.DischargeVars(m, a).1, f0)
  {
    DischargeVarsInv(m, a, f0);
    hide CodeGen.DischargeVars;
  }

  // Removing values moves no link.
  lemma RemoveKeeps(code: seq<Instr>, list: seq<int>)
    requires forall j :: j in list ==> Pending(code, j)
    ensures forall j :: Pending(code, j) ==> Pending(CodeGen.RemoveValues(code, list), j)
  {
    RemoveShape(code, list);
    forall j | Pending(code, j) ensures Pending(CodeGen.RemoveValues(code, list), j) {
      RemovedJumps(code, CodeGen.RemoveValues(code, list), list, j);
    }
  }

  lemma RemovedLinks(m1: FS, c1: seq<Instr>, a: Exp, kind: Kind, m2: FS, c2: seq<Instr>, c3: seq<Instr>, f0: int)
    requires Stepped(m1, Own(a), m2, a.(k := kind), f0)
    requires LinksKept(m1, c1, c2, if a.k.VJmp? then [a.k.pc] else [])
    requires |c3| == |c2| && forall j :: Pending(m2.code, j) ==> 0 <= j < |c2| && c3[j] == c2[j]
    ensures LinksKept(m1, c1, c3, Own(a))
  {
    forall j | Pending(m1.code, j) && j !in m1.jpc && j !in Own(a) ensures j < |c1| && j < |c3| && c3[j] == c1[j] {
      assert SameJump(m1.code, m2.code, j) && Pending(m2.code, j);
    }
  }

  lemma NegatedPending(m1: FS, a: Exp, m2: FS, kind: Kind, f0: int)
    requires Inv(m1) && ExpInv(m1, a, f0) && (m2, kind) == CodeGen.Negate(m1, a) && !a.k.VLocal? && !a.k.VUpval?
    ensures PendingList(m2.code, a.t) && PendingList(m2.code, a.f) && PendingList(m2.code, m2.jpc)
    ensures PendingList(m1.code, a.t) && PendingList(m1.code, a.f) && Disjoint(a.t, m1.jpc) && Disjoint(a.f, m1.jpc)
    ensures a.k.VJmp? ==> a.k.pc !in a.t && a.k.pc !in a.f && Pending(m1.code, a.k.pc) && a.k.pc !in m1.jpc
    ensures kind.VJmp? ==> kind == a.k && Pending(m2.code, kind.pc)
  {
    hide CodeGen.Negate, LandsBy, TestsPaired, Frame;
    NegateInv(m1, a, f0);
    NegatedJump(m1, a);
  }

  lemma NegatedJump(m: FS, a: Exp)
    ensures CodeGen.Negate(m, a).1.VJmp? ==> CodeGen.Negate(m, a).1 == a.k
  {
  }

  lemma NegatedLists(m1: FS, c1: seq<Instr>, a: Exp, m2: FS, c2: seq<Instr>, kind: Kind, e: ExpDesc, f0: int)
    requires Inv(m1) && ExpInv(m1, a, f0) && (m2, kind) == CodeGen.Negate(m1, a) && !a.k.VLocal? && !a.k.VUpval?
    requires Threads(c1, e.t, a.t) && Threads(c1, e.f, a.f) && (a.k.VJmp? ==> Threads(c1, a.k.pc, [a.k.pc]))
    requires LinksKept(m1, c1, c2, if a.k.VJmp? then [a.k.pc] else [])
    requires a.k.VJmp? ==> |c2| == |c1| && forall j :: Pending(m1.code, j) ==> c2[j] == c1[j]
    ensures PendingList(m2.code, a.t) && PendingList(m2.code, a.f) && PendingList(m2.code, m2.jpc)
    ensures Threads(c2, e.t, a.t) && Threads(c2, e.f, a.f)
    ensures kind.VJmp? ==> Threads(c2, kind.pc, [kind.pc]) && Pending(m2.code, kind.pc)
  {
    hide Inv, ExpInv, CodeGen.Negate, Frame, PendingList;
    var own := if a.k.VJmp? then [a.k.pc] else [];
    NegatedPending(m1, a, m2, kind, f0);
    ListStays(m1, c1, c2, own, e.t, a.t);
    ListStays(m1, c1, c2, own, e.f, a.f);
    if a.k.VJmp? {
      ThreadsSame(c1, c2, a.k.pc, [a.k.pc]);
    }
  }

  lemma ListsOf(c: seq<Instr>, e: ExpDesc, a: Exp)
    requires Threads(c, e.t, a.t) && Threads(c, e.f, a.f) && !HasJumps(a)
    ensures e.t == NO_JUMP && e.f == NO_JUMP
    ensures forall c' :: Threads(c', e.t, a.t) && Threads(c', e.f, a.f)
  {
  }

  lemma ExpLists(m: FS, a: Exp, f0: int)
    requires ExpInv(m, a, f0)
    ensures Disjoint(a.t, a.f)
  {
  }

  lemma LinksRefl(m: FS, c: seq<Instr>, own: seq<int>)
    requires |c| == |m.code|
    ensures LinksKept(m, c, c, own)
  {
  }

  lemma NotFolded(ops: Ops, op: ArithOp, e1: ExpDesc, a1: Exp, e2: ExpDesc, a2: Exp, c: seq<Instr>)
    requires e1.k == a1.k && e2.k == a2.k && Threads(c, e1.t, a1.t) && Threads(c, e1.f, a1.f)
    requires Threads(c, e2.t, a2.t) && Threads(c, e2.f, a2.f)
    requires e1.k.VKNum? && e1.t == NO_JUMP && e1.f == NO_JUMP && e2.k.VKNum? && e2.t == NO_JUMP && e2.f == NO_JUMP ==>
               ((op.DIV? || op.MOD?) && e2.k.nval == 0.0) || ops.isNaN(ops.arith(op, e1.k.nval, e2.k.nval))
    ensures ConstFolding(ops, op, a1, a2).None?
  {
    ThreadsIn(c, e1.t, a1.t);
    ThreadsIn(c, e1.f, a1.f);
    ThreadsIn(c, e2.t, a2.t);
    ThreadsIn(c, e2.f, a2.f);
  }

  // The first operand can go through exp2RK once the second has.
  lemma OperandReady(m: FS, a2: Exp, a1: Exp, f0: int, f1: int)
    requires Inv(m) && ExpInv(m, a2, f1) && Waiting(m, a1, f0, f1)
    ensures var (m1, a2', _) := CodeGen.Exp2RK(m, a2);
            Waiting(m1, a1, f0, f1) && f1 <= m1.freereg && (ExpInv(m1, a1, m1.freereg) || Ready(a1))
  {
    Exp2RKInv(m, a2, f1);
    hide CodeGen.Exp2RK;
  }

  lemma OperandLinks(m0: FS, c0: seq<Instr>, m1: FS, c1: seq<Instr>, m2: FS, c2: seq<Instr>, a1: Exp, a2: Exp, f0: int)
    requires Frame(m0, m1, Own(a2)) && Frame(m1, m2, []) && !HasJumps(a1) && !a1.k.VJmp?
    requires LinksKept(m0, c0, c1, Own(a2)) && LinksKept(m1, c1, c2, Own(a1))
    ensures Frame(m0, m2, Own(a2)) && LinksKept(m0, c0, c2, Own(a2))
  {
    assert Own(a1) == [];
    FrameTrans(m0, m1, m2, Own(a2), [], Own(a2));
    LinksTrans(m0, c0, m1, c1, c2, Own(a2), [], Own(a2));
  }

  lemma LinksThen(m0: FS, c0: seq<Instr>, m1: FS, c1: seq<Instr>, c2: seq<Instr>, own: seq<int>)
    requires Frame(m0, m1, own) && LinksKept(m0, c0, c1, own) && LinksKept(m1, c1, c2, [])
    ensures LinksKept(m0, c0, c2, own)
  {
    LinksTrans(m0, c0, m1, c1, c2, own, [], own);
  }

  lemma NumeralHeads(c: seq<Instr>, e: ExpDesc, a: Exp)
    requires e.k == a.k && Threads(c, e.t, a.t) && Threads(c, e.f, a.f)
    ensures e.k.VKNum? && e.t == NO_JUMP && e.f == NO_JUMP <==> IsNumeral(a)
    ensures IsNumeral(a) ==> forall c' :: Threads(c', e.t, a.t) && Threads(c', e.f, a.f)
  {
    ThreadsIn(c, e.t, a.t);
    ThreadsIn(c, e.f, a.f);
  }

  lemma SimpleTop(m: FS, a: Exp, f0: int)
    requires Inv(m) && ExpInv(m, a, f0) && Simple(a)
    ensures FreesTop(m, a) && !a.k.VJmp? && Inv(CodeGen.FreeExp(m, a))
    ensures TestsPaired(m.code) && PendingList(m.code, m.jpc)
  {
  }

  // Registers of a comparison: the second operand's first, then the first's.
  lemma CompReady(m: FS, a1: Exp, a2: Exp, f0: int, f1: int)
    requires Inv(m) && Waiting(m, a1, f0, f1) && ExpInv(m, a2, f1) && !a1.k.VKNum?
    ensures Ready(a1) && CodeGen.Exp2RK(m, a1).0 == m && CodeGen.Exp2RK(m, a1).1 == a1 && !a1.k.VJmp?
    ensures var (m2, a2', _) := CodeGen.Exp2RK(m, a2);
            FreesTop(m2, a2') && FreesTop(CodeGen.FreeExp(m2, a2'), a1) && Inv(m2) &&
            Inv(CodeGen.FreeExp(CodeGen.FreeExp(m2, a2'), a1))
  {
    FirstOperandInv(m, a1, f0, f1);
    Exp2RKInv(m, a2, f1);
    hide CodeGen.Exp2RK;
  }

  lemma PendingLists(m: FS, a: Exp, f0: int)
    requires Inv(m) && ExpInv(m, a, f0)
    ensures PendingList(m.code, a.t) && PendingList(m.code, a.f) && Disjoint(a.t, m.jpc) && Disjoint(a.f, m.jpc)
    ensures a.k.VJmp? ==> PendingList(m.code, [a.k.pc]) && Disjoint([a.k.pc], m.jpc)
    ensures forall l :: Disjoint(l, [])
  {
  }

  lemma FirstKept(m: FS, c: seq<Instr>, ca: seq<Instr>, a1: Exp, e2: ExpDesc, a2: Exp, f1: int)
    requires LinksKept(m, c, ca, Own(a1)) && !HasJumps(a1) && !a1.k.VJmp? && Inv(m) && ExpInv(m, a2, f1)
    requires Threads(c, e2.t, a2.t) && Threads(c, e2.f, a2.f) && (a2.k.VJmp? ==> Threads(c, a2.k.pc, [a2.k.pc]))
    ensures Threads(ca, e2.t, a2.t) && Threads(ca, e2.f, a2.f) && (a2.k.VJmp? ==> Threads(ca, a2.k.pc, [a2.k.pc]))
  {
    hide Inv, ExpInv, LinksKept, Threads, PendingList, Disjoint;
    assert Own(a1) == [];
    PendingLists(m, a2, f1);
    ListStays(m, c, ca, [], e2.t, a2.t);
    ListStays(m, c, ca, [], e2.f, a2.f);
    if a2.k.VJmp? { ListStays(m, c, ca, [], a2.k.pc, [a2.k.pc]); }
  }

  lemma OwnJump(m: FS, i: Instr, c: seq<Instr>, j: int, l: seq<int>)
    requires Inv(m) && IsTest(i) && l == CodeGen.CondJump(m, i).1 && Threads(c, j, l)
    ensures |l| == 1 && l[0] == j && Threads(c, j, [j])
  {
    CondJumpInv(m, i);
    hide CodeGen.CondJump;
  }

  lemma LinksFrom(m: FS, c: seq<Instr>, ca: seq<Instr>, cb: seq<Instr>, a1: Exp, own: seq<int>)
    requires LinksKept(m, c, ca, Own(a1)) && !HasJumps(a1) && !a1.k.VJmp? && LinksKept(m, ca, cb, own)
    ensures LinksKept(m, c, cb, own)
  {
    assert Own(a1) == [];
  }

  lemma AnyRegTop(m: FS, a: Exp, f0: int)
    requires Inv(m) && ExpInv(m, a, f0) && a.k.VNonreloc?
    ensures FreesTop(m, a) && Inv(CodeGen.FreeExp(m, a))
  {
  }

  lemma GoJumpIsInv(m: FS, a: Exp, m': FS, l: seq<int>, f0: int)
    requires GoJumpInv(m, a, m', l, f0)
    ensures Inv(m')
  {
  }

  lemma KeptPending(m: FS, a: Exp, f0: int)
    requires ExpInv(m, a, f0) && a.k.VJmp?
    ensures Pending(m.code, a.k.pc)
  {
  }

  lemma PendingInCode(m: FS, c: seq<Instr>)
    requires |c| == |m.code|
    ensures LinksKept(m, c, c, [])
  {
  }

  // The register an expression gives back is the one reserved next.
  lemma ReservedReg(m: FS, a: Exp, f0: int)
    requires Inv(m) && Usable(m, a, f0) && m.freereg == FreeAfter(m, a, f0)
    ensures FreesTop(m, a) && Inv(CodeGen.FreeExp(m, a))
    ensures var m2 := CodeGen.ReserveRegs(CodeGen.FreeExp(m, a), 1);
            Inv(m2) && Usable(m2, a, f0) && m2.freereg == f0 + 1
  {
  }

  lemma ReservedUsable(m: FS, a: Exp, f0: int)
    requires Inv(m) && ExpInv(m, a, f0) && !a.k.VNonreloc?
    ensures Usable(CodeGen.ReserveRegs(m, 1), a, m.freereg)
  {
    hide TestsPaired, LandsBy;
  }

  lemma CodeLabelKeeps(m: FS, a: int, b: bool, skip: bool)
    requires TestsPaired(m.code) && PendingList(m.code, m.jpc)
    ensures var m' := CodeGen.CodeLabel(m, a, b, skip);
            TestsPaired(m'.code) && m'.jpc == [] && (m.jpc == [] ==> m'.code == m.code + [OpLoadBool(a, b, skip)])
  {
    hide CodeGen.PatchListAux, PendingList;
    TestsAfterPatch(m, |m.code|);
    if m.jpc == [] { NoneOnHold(m, |m.code|); }
  }

  lemma TestsAfterPatch(m: FS, n: int)
    requires TestsPaired(m.code) && PendingList(m.code, m.jpc)
    ensures TestsPaired(CodeGen.PatchListAux(m.code, m.jpc, n, NO_REG, n))
  {
    hide CodeGen.PatchListAux;
    var code := CodeGen.PatchListAux(m.code, m.jpc, n, NO_REG, n);
    PatchShape(m.code, m.jpc, n, NO_REG, n);
    forall p | 0 <= p < |code| && IsTest(code[p]) ensures p + 1 < |code| && code[p + 1].OpJmp? {
      assert code[p] == PatchedAt(m.code, p, m.jpc, [], n, NO_REG, n, n);
      assert IsTest(m.code[p]);
      assert code[p + 1] == PatchedAt(m.code, p + 1, m.jpc, [], n, NO_REG, n, n);
    }
  }

  lemma NoneOnHold(m: FS, n: int)
    requires m.jpc == []
    ensures CodeGen.PatchListAux(m.code, m.jpc, n, NO_REG, n) == m.code
  {
  }

  lemma JumpKeeps(m: FS)
    requires Inv(m)
    ensures var (m', l) := CodeGen.Jump(m); TestsPaired(m'.code) && PendingList(m'.code, l) && m'.jpc == []
  {
    JumpInv(m);
  }

  lemma KeptBelow(m: FS, c: seq<Instr>, c': seq<Instr>)
    requires |c| == |m.code| && |c| <= |c'| && forall j :: 0 <= j < |c| && j !in m.jpc ==> c'[j] == c[j]
    ensures LinksKept(m, c, c', [])
  {
  }

  lemma SameJumps(m1: FS, m2: FS, c1: seq<Instr>, c2: seq<Instr>, own: seq<int>)
    requires LinksKept(m2, c1, c2, own) && m2.code == m1.code && m2.jpc == m1.jpc
    ensures LinksKept(m1, c1, c2, own)
  {
  }

  // hasjumps compares the two list heads
  lemma NoListNoJump(code: seq<Instr>, e: ExpDesc, a: Exp)
    requires Threads(code, e.t, a.t) && Threads(code, e.f, a.f) && Disjoint(a.t, a.f)
    ensures e.t == e.f <==> !HasJumps(a)
  {
    ThreadsIn(code, e.t, a.t);
    ThreadsIn(code, e.f, a.f);
    if a.t != [] && a.f != [] {
      assert a.t[0] in a.t && a.f[0] in a.f;
    }
  }

  lemma GoLists(m1: FS, a: Exp, m2: FS, l: seq<int>, f0: int)
    requires GoJumpInv(m1, a, m2, l, f0) && ListsInv(m1, a)
    ensures PendingList(m2.code, a.t) && PendingList(m2.code, a.f) && PendingList(m2.code, l)
    ensures PendingList(m2.code, m2.jpc)
    ensures Disjoint(a.t, a.f) && Disjoint(a.f, a.t) && Disjoint(a.t, l) && Disjoint(a.f, l)
    ensures Disjoint(a.t, m2.jpc) && Disjoint(a.f, m2.jpc) && Disjoint(m2.jpc, a.t) && Disjoint(m2.jpc, a.f)
    ensures Disjoint(l, m2.jpc)
    ensures PendingList(m1.code, a.t) && PendingList(m1.code, a.f) && Disjoint(a.t, m1.jpc) && Disjoint(a.f, m1.jpc)
  {
    ListKept(m1, m2, l, a.t);
    ListKept(m1, m2, l, a.f);
  }

  lemma GoLinks(m0: FS, c0: seq<Instr>, m1: FS, c1: seq<Instr>, c2: seq<Instr>, c3: seq<Instr>, a0: Exp, a: Exp,
      l: seq<int>)
    requires Frame(m0, m1, []) && LinksKept(m0, c0, c1, []) && LinksKept(m1, c1, c2, l) && Own(a) == Own(a0)
    requires forall j :: j in l ==> j >= |m1.code| || j in m1.jpc || j in Own(a)
    requires |c3| == |c2| && forall i :: 0 <= i < |c2| && i !in a.t && i !in a.f && i !in m1.jpc ==> c3[i] == c2[i]
    ensures LinksKept(m0, c0, c3, Own(a0))
  {
    forall j | Pending(m0.code, j) && j !in m0.jpc && j !in Own(a0) ensures j < |c0| && j < |c3| && c3[j] == c0[j] {
      assert SameJump(m0.code, m1.code, j) && j !in m1.jpc && Pending(m1.code, j);
      assert j !in l;
    }
  }

  lemma FirstPatched(code: seq<Instr>, f: seq<int>, t: seq<int>, vt: int, reg: int, dt: int)
    requires TestsPaired(code) && PendingList(code, f) && PendingList(code, t) && Disjoint(f, t)
    ensures var code1 := CodeGen.PatchListAux(code, f, vt, reg, dt);
            TestsPaired(code1) && PendingList(code1, t) && forall j :: Pending(code, j) && j !in f ==> Pending(code1, j)
  {
    var code1 := CodeGen.PatchListAux(code, f, vt, reg, dt);
    PatchShape(code, f, vt, reg, dt);
    hide CodeGen.PatchListAux;
    forall p | 0 <= p < |code1| && IsTest(code1[p]) ensures p + 1 < |code1| && code1[p + 1].OpJmp? {
      assert code1[p] == PatchedAt(code, p, f, [], vt, reg, dt, dt);
      assert IsTest(code[p]);
      assert code1[p + 1] == PatchedAt(code, p + 1, f, [], vt, reg, dt, dt);
    }
    forall j | Pending(code, j) && j !in f ensures Pending(code1, j) {
      PatchedJumps(code, code1, f, [], vt, reg, dt, dt, j);
    }
  }

  lemma ToPatchLists(m: FS, a: Exp, at: seq<int>)
    requires Inv(m) && ToPatch(m, a, at)
    ensures TestsPaired(m.code) && PendingList(m.code, m.jpc)
    ensures PendingList(m.code, a.f) && PendingList(m.code, at) && Disjoint(a.f, at) && Disjoint(at, m.jpc)
    ensures Disjoint(a.f, m.jpc)
  {
  }

  lemma HeadsDiffer(code: seq<Instr>, f: int, lf: seq<int>, t: int, lt: seq<int>)
    requires Threads(code, f, lf) && Threads(code, t, lt) && Disjoint(lf, lt)
    ensures t != f <==> lt != [] || lf != []
  {
    ThreadsIn(code, f, lf);
    ThreadsIn(code, t, lt);
    if lt != [] && lf != [] {
      assert lt[0] in lt && lf[0] in lf;
    }
  }

  lemma LoadLabelsKeep(m: FS, a: Exp, at: seq<int>, reg: int)
    requires Inv(m) && ToPatch(m, a, at)
    ensures var m1 := CodeGen.LoadLabels(m, a, reg).0;
            TestsPaired(m1.code) && PendingList(m1.code, m1.jpc) &&
            PendingList(m1.code, a.f) && PendingList(m1.code, at) && Disjoint(at, m1.jpc) && Disjoint(a.f, m1.jpc) &&
            forall j :: Pending(m.code, j) ==> Pending(m1.code, j)
  {
    var m1 := CodeGen.LoadLabels(m, a, reg).0;
    LoadLabelsShape(m, a, reg);
    LoadLabelsInv(m, m1, if a.k.VJmp? then [] else [OpJmp(NO_JUMP)], reg);
    hide CodeGen.LoadLabels;
    ListKept(m, m1, [], at);
    ListKept(m, m1, [], a.f);
  }

  lemma Exp2RegListsWhole(m: FS, a: Exp, t: seq<int>, reg: int)
    ensures var m' := Exp2RegLists(m, a, t, reg);
            if t == [] && a.f == [] then m' == m
            else
              var (m1, pf, pt) := if NeedValue(m.code, t) || NeedValue(m.code, a.f) then CodeGen.LoadLabels(m, a, reg)
                                  else (m, NO_JUMP, NO_JUMP);
              m' == m1.(lasttarget := |m1.code|, code :=
                CodeGen.PatchListAux(CodeGen.PatchListAux(m1.code, a.f, |m1.code|, reg, pf), t, |m1.code|, reg, pt))
  {
    hide CodeGen.LoadLabels, CodeGen.PatchListAux, NeedValue;
  }

  lemma JoinedLinks(m0: FS, c0: seq<Instr>, m1: FS, c1: seq<Instr>, c2: seq<Instr>, c3: seq<Instr>,
                    a0: Exp, a: Exp, at: seq<int>)
    requires Frame(m0, m1, []) && LinksKept(m0, c0, c1, []) && Fresh(m0, Own(a0), at + a.f)
    requires |c2| == |c1| && forall j :: 0 <= j < |c1| && j !in a.t ==> c2[j] == c1[j]
    requires LinksKept(m1, c2, c3, at + a.f) && forall j :: j in a.t ==> j in at
    ensures LinksKept(m0, c0, c3, Own(a0))
  {
    assert LinksKept(m1, c1, c3, at + a.f);
    LinksTrans(m0, c0, m1, c1, c3, [], at + a.f, Own(a0));
  }

  // Changing the last instruction, which is not a jump, moves no link.
  lemma LastChanged(c: seq<Instr>, mc: seq<Instr>, list: seq<int>, head: int, i: Instr)
    requires Matches(c, mc) && |c| > 0 && !mc[|c| - 1].OpJmp? && !i.OpJmp?
    requires PendingList(mc, list) && Threads(c, head, list)
    ensures var c', mc' := c[|c| - 1 := i], mc[|c| - 1 := i];
            Matches(c', mc') && Threads(c', head, list)
  {
    var c' := c[|c| - 1 := i];
    forall j | j in list && 0 <= j < |c| ensures j < |c'| && c'[j] == c[j] {
      assert Pending(mc, j);
    }
    ThreadsSame(c, c', head, list);
  }

  lemma PatchUnfolds(code: seq<Instr>, list: seq<int>, vt: int, reg: int, dt: int)
    ensures CodeGen.PatchListAux(code, list, vt, reg, dt) ==
            if list == [] then code
            else
              var j := list[0];
              var code1 := CodeGen.FixJump(CodeGen.PatchTestReg(code, j, reg), j,
                                           if ControlIsTestSet(code, j) then vt else dt);
              CodeGen.PatchListAux(code1, list[1..], vt, reg, dt)
  {
  }

  lemma OneJumpPatched(code: seq<Instr>, j: int, vt: int, reg: int, dt: int)
    requires Pending(code, j)
    ensures var dest := if ControlIsTestSet(code, j) then vt else dt;
            var code' := CodeGen.FixJump(CodeGen.PatchTestReg(code, j, reg), j, dest);
            forall i :: Pending(code, i) && i != j ==> Pending(code', i)
  {
  }
}
