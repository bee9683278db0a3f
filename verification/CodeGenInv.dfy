// What every step of the code generator keeps: patch lists are disjoint sets of
// pending jumps, registers are freed in stack order, jumps land on labels.

module CodeGenInv {
  import opened LuaValue
  import opened LuaVM
  import opened CodeGen
  import opened Options

  ghost predicate TestsPaired(code: seq<Instr>) {
    forall p :: 0 <= p < |code| && IsTest(code[p]) ==> p + 1 < |code| && code[p + 1].OpJmp?
  }

  // Jumps already fixed, and the skips of OP_LOADBOOL, land at most at `last'.
  ghost predicate LandsBy(code: seq<Instr>, last: int) {
    forall p {:trigger code[p]} :: 0 <= p < |code| ==>
      (code[p].OpJmp? && code[p].sbx >= 0 ==> p + 1 + code[p].sbx <= last) &&
      (code[p].OpLoadBool? && code[p].skip ==> p + 2 <= last)
  }

  ghost predicate PendingList(code: seq<Instr>, list: seq<int>) {
    (forall j :: j in list ==> Pending(code, j)) && Distinct(list)
  }

  ghost predicate Distinct(list: seq<int>) {
    forall a, b :: 0 <= a < b < |list| ==> list[a] != list[b]
  }

  ghost predicate Disjoint(l1: seq<int>, l2: seq<int>) {
    forall j :: j in l1 ==> j !in l2
  }

  ghost predicate Inv(s: FS) {
    && TestsPaired(s.code)
    && LandsBy(s.code, s.lasttarget)
    && PendingList(s.code, s.jpc)
    && s.lasttarget <= |s.code|
    && (s.jpc != [] ==> s.lasttarget == |s.code|)
    && 0 <= s.nactvar <= s.freereg
    && (s.overflow || s.freereg <= s.maxstack < MAXSTACK)
  }

  // A concatenation takes consecutive registers, starting with the expression's own.
  predicate ConcatFrom(i: Instr, f0: int) {
    i.OpConcat? ==> i.b == f0 < i.c
  }

  ghost predicate KindInv(s: FS, e: Exp, f0: int) {
    var n := |s.code|;
    match e.k
    case VNonreloc(r) => 0 <= r < s.nactvar || r == f0
    case VLocal(r) => 0 <= r < s.nactvar
    case VK(i) => 0 <= i < |s.k|
    case VReloc(pc) =>
      pc == n - 1 >= 0 && IsValueInstr(s.code[pc]) && s.jpc == [] && s.lasttarget <= pc && ConcatFrom(s.code[pc], f0)
    case VJmp(pc) =>
      pc == n - 1 >= 1 && Pending(s.code, pc) && s.code[pc - 1].OpComp? && pc !in e.t && pc !in e.f &&
      s.jpc == [] && s.lasttarget <= pc - 1
    case _ => true
  }

  ghost predicate ListsInv(s: FS, e: Exp) {
    PendingList(s.code, e.t) && PendingList(s.code, e.f) &&
    Disjoint(e.t, e.f) && Disjoint(e.t, s.jpc) && Disjoint(e.f, s.jpc)
  }

  // Descriptor e is usable in state s, for an expression whose first register is f0.
  ghost predicate Usable(s: FS, e: Exp, f0: int) {
    s.nactvar <= f0 && KindInv(s, e, f0) && ListsInv(s, e)
  }

  // Registers are a stack: only the expression's own register is taken.
  function FreeAfter(s: FS, e: Exp, f0: int): int {
    if e.k.VNonreloc? && e.k.reg >= s.nactvar then f0 + 1 else f0
  }

  ghost predicate ExpInv(s: FS, e: Exp, f0: int) {
    Usable(s, e, f0) && s.freereg == FreeAfter(s, e, f0)
  }

  // Jump j and the test set that may control it are the same in both codes.
  ghost predicate SameJump(code: seq<Instr>, code': seq<Instr>, j: int) {
    && 0 <= j < |code| && j < |code'| && code'[j] == code[j]
    && ControlIsTestSet(code, j) == ControlIsTestSet(code', j)
    && (ControlIsTestSet(code, j) ==> code'[Control(code', j)] == code[Control(code, j)])
  }

  function Own(e: Exp): seq<int> {
    e.t + e.f + (if e.k.VJmp? then [e.k.pc] else [])
  }

  ghost predicate Grows(s: FS, s': FS) {
    var n := |s.code|;
    && s'.nactvar == s.nactvar && s.k <= s'.k
    && (s.overflow ==> s'.overflow)
    && (|s'.code| > n ||
        (|s'.code| == n && s'.lasttarget >= s.lasttarget &&
         (n > 0 && s'.code[n - 1].OpLoadNil? ==> s.code[n - 1].OpLoadNil?)))
  }

  // From s to s', the jumps pending in s that are neither waiting to land nor
  // in `own' are left alone.
  ghost predicate Keeps(s: FS, s': FS, own: seq<int>) {
    forall j :: Pending(s.code, j) && j !in s.jpc && j !in own ==> SameJump(s.code, s'.code, j) && j !in s'.jpc
  }

  // Every jump in `list' was made since s, or was then in `own' or waiting to land.
  ghost predicate Fresh(s: FS, own: seq<int>, list: seq<int>) {
    forall j :: j in list ==> j >= |s.code| || j in s.jpc || j in own
  }

  ghost predicate Frame(s: FS, s': FS, own: seq<int>) {
    Grows(s, s') && Keeps(s, s', own) && Fresh(s, own, s'.jpc)
  }

  // What patching the jumps in f and t does to instruction i.
  function PatchedAt(code: seq<Instr>, i: int, f: seq<int>, t: seq<int>,
                     vtarget: int, reg: int, pf: int, pt: int): Instr
    requires 0 <= i < |code|
  {
    if i in f || i in t then OpJmp(Dest(code, i, f, vtarget, pf, pt) - (i + 1))
    else if (i + 1 in f || i + 1 in t) && code[i].OpTestSet? then PatchTest(code[i], reg)
    else code[i]
  }

  ghost predicate Patched(code: seq<Instr>, code': seq<Instr>, f: seq<int>, t: seq<int>,
                          vtarget: int, reg: int, pf: int, pt: int)
  {
    |code'| == |code| &&
    forall i {:trigger code'[i]} {:trigger code[i]} :: 0 <= i < |code| ==>
      code'[i] == PatchedAt(code, i, f, t, vtarget, reg, pf, pt)
  }

  function Dest(code: seq<Instr>, j: int, f: seq<int>, vtarget: int, pf: int, pt: int): int {
    if ControlIsTestSet(code, j) then vtarget else if j in f then pf else pt
  }

  lemma PatchedJumps(code: seq<Instr>, code': seq<Instr>, f: seq<int>, t: seq<int>,
                     vt: int, reg: int, pf: int, pt: int, j: int)
    requires Patched(code, code', f, t, vt, reg, pf, pt)
    requires Pending(code, j) && j !in f && j !in t
    requires forall i :: i in f || i in t ==> Pending(code, i)
    ensures SameJump(code, code', j)
  {
    if j >= 1 {
      assert code'[j - 1] == PatchedAt(code, j - 1, f, t, vt, reg, pf, pt);
    }
  }

  lemma PatchedFirst(code: seq<Instr>, j: int, vt: int, reg: int, dt: int)
    requires Pending(code, j)
    ensures var dest := if ControlIsTestSet(code, j) then vt else dt;
            Patched(code, FixJump(PatchTestReg(code, j, reg), j, dest), [j], [], vt, reg, dt, dt)
  {
  }

  lemma PatchedOneMore(code: seq<Instr>, code1: seq<Instr>, x: Instr, j: int, rest: seq<int>, vt: int, reg: int,
      dt: int, i: int)
    requires |code1| == |code| && 0 <= i < |code| && Pending(code, j) && j !in rest
    requires code1[i] == PatchedAt(code, i, [j], [], vt, reg, dt, dt)
    requires x == PatchedAt(code1, i, rest, [], vt, reg, dt, dt)
    requires forall k :: k in rest ==> SameJump(code, code1, k) && Pending(code, k)
    ensures x == PatchedAt(code, i, [j] + rest, [], vt, reg, dt, dt)
  {
    var list := [j] + rest;
    assert i in list <==> i == j || i in rest;
    assert i + 1 in list <==> i + 1 == j || i + 1 in rest;
    if i in rest {
      assert SameJump(code, code1, i);
    } else if i + 1 in rest {
      assert SameJump(code, code1, i + 1);
    }
  }

  lemma {:induction false} PatchShape(code: seq<Instr>, list: seq<int>, vt: int, reg: int, dt: int)
    requires PendingList(code, list)
    ensures Patched(code, PatchListAux(code, list, vt, reg, dt), list, [], vt, reg, dt, dt)
    decreases list
  {
    hide FixJump, PatchTestReg, SameJump, PatchedAt;
    if list == [] {
      PatchNone(code, vt, reg, dt);
    } else {
      var j, rest := list[0], list[1..];
      var dest := if ControlIsTestSet(code, j) then vt else dt;
      var code1 := FixJump(PatchTestReg(code, j, reg), j, dest);
      var code2 := PatchListAux(code1, rest, vt, reg, dt);
      assert Pending(code, j);
      assert list == [j] + rest;
      DistinctTail(list);
      PatchedFirst(code, j, vt, reg, dt);
      forall i | i in rest ensures SameJump(code, code1, i) && Pending(code, i) && Pending(code1, i) {
        assert i in list;
        PatchedJumps(code, code1, [j], [], vt, reg, dt, dt, i);
        SamePending(code, code1, i);
      }
      PatchShape(code1, rest, vt, reg, dt);
      forall i | 0 <= i < |code| ensures code2[i] == PatchedAt(code, i, list, [], vt, reg, dt, dt) {
        PatchedOneMore(code, code1, code2[i], j, rest, vt, reg, dt, i);
      }
    }
  }

  lemma PatchNone(code: seq<Instr>, vt: int, reg: int, dt: int)
    ensures Patched(code, code, [], [], vt, reg, dt, dt)
  {
  }

  lemma SamePending(code: seq<Instr>, code': seq<Instr>, j: int)
    requires SameJump(code, code', j) && Pending(code, j)
    ensures Pending(code', j)
  {
  }

  lemma DistinctTail(list: seq<int>)
    requires list != [] && Distinct(list)
    ensures Distinct(list[1..]) && list[0] !in list[1..]
  {
    var rest := list[1..];
    forall a, b | 0 <= a < b < |rest| ensures rest[a] != rest[b] {
      assert rest[a] == list[a + 1] && rest[b] == list[b + 1];
    }
    forall a | 0 <= a < |rest| ensures rest[a] != list[0] {
      assert rest[a] == list[a + 1];
    }
  }

  lemma PatchedInv(code: seq<Instr>, code': seq<Instr>, f: seq<int>, t: seq<int>,
                   vt: int, reg: int, pf: int, pt: int, last0: int, last: int)
    requires Patched(code, code', f, t, vt, reg, pf, pt)
    requires TestsPaired(code) && LandsBy(code, last0) && last0 <= last
    requires forall j :: j in f || j in t ==> Pending(code, j) && Dest(code, j, f, vt, pf, pt) <= last
    ensures TestsPaired(code') && LandsBy(code', last)
    ensures forall i :: 0 <= i < |code| ==> IsTest(code'[i]) == IsTest(code[i])
  {
    forall p | 0 <= p < |code| && IsTest(code'[p]) ensures p + 1 < |code| && code'[p + 1].OpJmp? {
      assert code'[p] == PatchedAt(code, p, f, t, vt, reg, pf, pt);
      assert IsTest(code[p]);
      assert code'[p + 1] == PatchedAt(code, p + 1, f, t, vt, reg, pf, pt);
    }
  }

  lemma EmitShape(s: FS, i: Instr)
    requires Inv(s)
    ensures var n, code' := |s.code|, Emit(s, i).code;
            |code'| == n + 1 && code'[n] == i && Emit(s, i).jpc == [] &&
            Patched(s.code, code'[..n], s.jpc, [], n, NO_REG, n, n)
  {
    var n := |s.code|;
    PatchShape(s.code, s.jpc, n, NO_REG, n);
    assert Emit(s, i).code[..n] == PatchListAux(s.code, s.jpc, n, NO_REG, n);
  }

  lemma EmitInv(s: FS, i: Instr)
    requires Inv(s) && !IsTest(i) && !i.OpJmp? && !(i.OpLoadBool? && i.skip)
    ensures var s' := Emit(s, i); Inv(s') && Frame(s, s', []) && |s'.code| == |s.code| + 1 && s'.code[|s.code|] == i
  {
    var n, s' := |s.code|, Emit(s, i);
    var code := s'.code[..n];
    EmitShape(s, i);
    PatchedInv(s.code, code, s.jpc, [], n, NO_REG, n, n, s.lasttarget, s.lasttarget);
    forall j | Pending(s.code, j) && j !in s.jpc ensures SameJump(s.code, s'.code, j) {
      PatchedJumps(s.code, code, s.jpc, [], n, NO_REG, n, n, j);
    }
  }

  // A test and its jump, or a jump alone.
  lemma CondJumpInv(s: FS, i: Instr)
    requires Inv(s) && IsTest(i)
    ensures var (s', l) := CondJump(s, i); var n := |s.code|;
            Inv(s') && Frame(s, s', []) && l == [n + 1] && |s'.code| == n + 2 && s'.code[n] == i &&
            Pending(s'.code, n + 1) && s'.jpc == [] && s'.lasttarget == s.lasttarget
  {
    var n, s1, s' := |s.code|, Emit(s, i), CondJump(s, i).0;
    EmitShape(s, i);
    assert s'.code == s1.code + [OpJmp(NO_JUMP)];
    assert s'.code[..n] == s1.code[..n];
    CondJumpPatched(s, i, s'.code);
    assert TestsPaired(s'.code) && LandsBy(s'.code, s.lasttarget);
  }

  // Nothing but the fixing of the pending jumps happens to the code before a test and its jump.
  lemma CondJumpPatched(s: FS, i: Instr, code: seq<Instr>)
    requires Inv(s) && |code| == |s.code| + 2 && code[..|s.code|] == Emit(s, i).code[..|s.code|]
    ensures TestsPaired(code[..|s.code|]) && LandsBy(code[..|s.code|], s.lasttarget)
    ensures forall j :: Pending(s.code, j) && j !in s.jpc ==> SameJump(s.code, code, j)
  {
    hide Emit;
    var n, code0 := |s.code|, code[..|s.code|];
    EmitShape(s, i);
    PatchedInv(s.code, code0, s.jpc, [], n, NO_REG, n, n, s.lasttarget, s.lasttarget);
    forall j | Pending(s.code, j) && j !in s.jpc ensures SameJump(s.code, code, j) {
      PatchedJumps(s.code, code0, s.jpc, [], n, NO_REG, n, n, j);
    }
  }

  lemma JumpInv(s: FS)
    requires Inv(s)
    ensures var (s', l) := Jump(s); var n := |s.code|;
            Inv(s') && Frame(s, s', []) && l == [n] + s.jpc && s'.code == s.code + [OpJmp(NO_JUMP)] && s'.jpc == [] &&
            s'.freereg == s.freereg && PendingList(s'.code, l)
  {
    DistinctConcat([|s.code|], s.jpc);
  }

  lemma DistinctConcat(l1: seq<int>, l2: seq<int>)
    requires Distinct(l1) && Distinct(l2) && Disjoint(l1, l2)
    ensures Distinct(l1 + l2)
    ensures forall j :: j in l1 + l2 <==> j in l1 || j in l2
  {
    forall a, b | 0 <= a < b < |l1 + l2| ensures (l1 + l2)[a] != (l1 + l2)[b] {
      if a < |l1| <= b {
        assert (l1 + l2)[a] in l1 && (l1 + l2)[b] in l2;
      }
    }
  }

  // A list no step touched is still a list of pending jumps.
  lemma ListKept(s: FS, s': FS, own: seq<int>, list: seq<int>)
    requires Keeps(s, s', own) && PendingList(s.code, list)
    requires Disjoint(list, s.jpc) && Disjoint(list, own)
    ensures PendingList(s'.code, list) && Disjoint(list, s'.jpc)
  {
    forall j | j in list ensures Pending(s'.code, j) && j !in s'.jpc {
      assert Pending(s.code, j) && SameJump(s.code, s'.code, j);
    }
  }

  lemma FrameTrans(s: FS, s1: FS, s2: FS, own0: seq<int>, own1: seq<int>, own: seq<int>)
    requires Frame(s, s1, own0) && Frame(s1, s2, own1)
    requires Fresh(s, own, own1) && (forall j :: j in own0 ==> j in own)
    ensures Frame(s, s2, own)
  {
    forall j | Pending(s.code, j) && j !in s.jpc && j !in own ensures SameJump(s.code, s2.code, j) && j !in s2.jpc {
      assert SameJump(s.code, s1.code, j) && j !in s1.jpc;
      assert j !in own1;
      assert Pending(s1.code, j);
      assert SameJump(s1.code, s2.code, j);
    }
  }

  predicate Plain(i: Instr) {
    !IsTest(i) && !i.OpJmp? && !(i.OpLoadBool? && i.skip)
  }

  // Changing an operand of the last instruction.
  lemma ReplaceLast(s: FS, i: Instr)
    requires Inv(s) && |s.code| > 0 && Plain(s.code[|s.code| - 1]) && Plain(i)
    requires i.OpLoadNil? ==> s.code[|s.code| - 1].OpLoadNil?
    ensures var s' := s.(code := s.code[|s.code| - 1 := i]); Inv(s') && Frame(s, s', [])
  {
    var s' := s.(code := s.code[|s.code| - 1 := i]);
    forall j | Pending(s.code, j) ensures SameJump(s.code, s'.code, j) && Pending(s'.code, j) {
    }
    forall p | 0 <= p < |s'.code| && IsTest(s'.code[p]) ensures p + 1 < |s'.code| && s'.code[p + 1].OpJmp? {
      assert IsTest(s.code[p]);
    }
    assert LandsBy(s'.code, s.lasttarget);
  }

  // The instruction before can be widened to clear register `from' as well.
  predicate Mergeable(s: FS) {
    |s.code| > 0 && |s.code| > s.lasttarget && s.code[|s.code| - 1].OpLoadNil?
  }

  predicate Merges(s: FS, from: int) {
    Mergeable(s) && s.code[|s.code| - 1].a <= from <= s.code[|s.code| - 1].b + 1
  }

  lemma EmitNilCases(s: FS, from: int)
    ensures EmitNil(s, from, 1) ==
      if |s.code| == 0 > s.lasttarget && from >= s.nactvar then s
      else if Merges(s, from) then
        if from > s.code[|s.code| - 1].b
          then s.(code := s.code[|s.code| - 1 := OpLoadNil(s.code[|s.code| - 1].a, from)])
        else s
      else Emit(s, OpLoadNil(from, from))
  {
  }

  lemma EmitNilInv(s: FS, from: int)
    requires Inv(s) && from >= s.nactvar
    ensures var s' := EmitNil(s, from, 1);
            Inv(s') && Frame(s, s', []) && s'.jpc == [] && s'.lasttarget == s.lasttarget && s'.freereg == s.freereg
  {
    EmitNilCases(s, from);
    if Merges(s, from) {
      ReplaceLast(s, OpLoadNil(s.code[|s.code| - 1].a, from));
    } else if !(|s.code| == 0 > s.lasttarget) {
      EmitInv(s, OpLoadNil(from, from));
    }
  }

  lemma DischargeVarsInv(s: FS, e: Exp, f0: int)
    requires Inv(s) && Usable(s, e, f0)
    ensures var (s', e') := DischargeVars(s, e);
            Inv(s') && Usable(s', e', f0) && Frame(s, s', []) && s'.freereg == s.freereg &&
            FreeAfter(s', e', f0) == FreeAfter(s, e, f0) && Own(e') == Own(e) && e'.t == e.t && e'.f == e.f &&
            !e'.k.VLocal? && !e'.k.VUpval? && (e.k.VJmp? || !e'.k.VJmp?)
  {
    if e.k.VUpval? {
      EmitInv(s, OpGetUpval(0, e.k.uv));
      ListKept(s, DischargeVars(s, e).0, [], e.t);
      ListKept(s, DischargeVars(s, e).0, [], e.f);
    }
  }

  lemma LoadInv(s: FS, e: Exp, f0: int, reg: int)
    requires Inv(s) && Usable(s, e, f0) && reg == f0 && !e.k.VLocal? && !e.k.VUpval? && !e.k.VJmp?
    ensures var s' := Load(s, e.k, reg); Inv(s') && Frame(s, s', []) && s'.freereg == s.freereg
  {
    hide Inv, Usable, Frame, Emit, EmitNil, AddK;
    LoadCases(s, e, f0, reg);
    if e.k.VNil? {
      EmitNilInv(s, reg);
    } else if e.k.VReloc? {
      ReplaceLast(s, SetA(s.code[e.k.pc], reg));
    } else if e.k.VNonreloc? && e.k.reg == reg {
      FrameRefl(s);
    } else {
      var (s1, i) := LoadInstr(s, e.k, reg);
      if e.k.VKNum? { AddKInv(s, Num(e.k.nval)); } else { FrameRefl(s); }
      EmitInv(s1, i);
      EmitRegs(s1, i);
      FrameTrans(s, s1, Emit(s1, i), [], [], []);
    }
  }

  lemma LoadCases(s: FS, e: Exp, f0: int, reg: int)
    requires Inv(s) && Usable(s, e, f0) && reg == f0 && !e.k.VLocal? && !e.k.VUpval? && !e.k.VJmp?
    ensures s.nactvar <= reg
    ensures if e.k.VNil? then Load(s, e.k, reg) == EmitNil(s, reg, 1)
            else if e.k.VReloc? then
              e.k.pc == |s.code| - 1 >= 0 && IsValueInstr(s.code[e.k.pc]) && Plain(s.code[e.k.pc]) &&
              Plain(SetA(s.code[e.k.pc], reg)) && !SetA(s.code[e.k.pc], reg).OpLoadNil? &&
              Load(s, e.k, reg) == s.(code := s.code[e.k.pc := SetA(s.code[e.k.pc], reg)])
            else if e.k.VNonreloc? && e.k.reg == reg then Load(s, e.k, reg) == s
            else
              var (s1, i) := LoadInstr(s, e.k, reg);
              Load(s, e.k, reg) == Emit(s1, i) && !IsTest(i) && !i.OpJmp? && !(i.OpLoadBool? && i.skip)
  {
    hide Emit, EmitNil, AddK;
  }

  lemma FrameRefl(s: FS)
    requires Inv(s)
    ensures Frame(s, s, [])
  {
  }

  lemma EmitRegs(s: FS, i: Instr)
    ensures Emit(s, i).freereg == s.freereg
  {
  }

  function LoadInstr(s: FS, k: Kind, reg: int): (FS, Instr) {
    match k
    case VFalse => (s, OpLoadBool(reg, false, false))
    case VTrue => (s, OpLoadBool(reg, true, false))
    case VK(i) => (s, OpLoadK(reg, i))
    case VKNum(n) => (AddK(s, Num(n)).0, OpLoadK(reg, AddK(s, Num(n)).1))
    case VNonreloc(r) => (s, OpMove(reg, r))
    case _ => (s, OpMove(reg, reg))
  }

  // After discharge, a value sits in `reg' unless the expression is a jump.
  lemma Discharge2RegInv(s0: FS, e0: Exp, f0: int, reg: int)
    requires Inv(s0) && Usable(s0, e0, f0) && reg == f0
    ensures var (s, e) := Discharge2Reg(s0, e0, reg);
            Inv(s) && ListsInv(s, e) && Frame(s0, s, []) && s.freereg == s0.freereg &&
            e.t == e0.t && e.f == e0.f &&
            (if e0.k.VJmp? then s == s0 && e == e0 else e.k == VNonreloc(reg))
  {
    var (s, e) := DischargeVars(s0, e0);
    DischargeVarsInv(s0, e0, f0);
    if !e0.k.VJmp? {
      var s' := Load(s, e.k, reg);
      LoadInv(s, e, f0, reg);
      FrameTrans(s0, s, s', [], [], []);
      ListKept(s, s', [], e.t);
      ListKept(s, s', [], e.f);
    }
  }

  lemma Discharge2AnyRegInv(s0: FS, e0: Exp, f0: int)
    requires Inv(s0) && ExpInv(s0, e0, f0) && !e0.k.VJmp?
    ensures var (s, e) := Discharge2AnyReg(s0, e0);
            Inv(s) && ExpInv(s, e, f0) && Frame(s0, s, []) && e.k.VNonreloc? && e.t == e0.t && e.f == e0.f
  {
    if !e0.k.VNonreloc? {
      var s1 := ReserveRegs(s0, 1);
      Discharge2RegInv(s1, e0, f0, f0);
      FrameTrans(s0, s1, Discharge2AnyReg(s0, e0).0, [], [], []);
    }
  }

  // The two loads, after a jump over them when something falls through.
  lemma LoadLabelsShape(s: FS, e: Exp, reg: int)
    requires Inv(s) && (e.k.VJmp? ==> s.jpc == [])
    ensures var (s', pf, pt) := LoadLabels(s, e, reg);
            var skip := if e.k.VJmp? then [] else [OpJmp(NO_JUMP)];
            var n := |s.code| + |skip|;
            pf == n && pt == n + 1 &&
            s'.code == s.code + skip + [OpLoadBool(reg, false, true), OpLoadBool(reg, true, false)] &&
            s'.jpc == (if e.k.VJmp? then [] else [|s.code|] + s.jpc) && s'.lasttarget == n + 2 &&
            s' == s.(code := s'.code, jpc := s'.jpc, lasttarget := s'.lasttarget)
  {
  }

  lemma LoadLabelsInv(s: FS, s': FS, skip: seq<Instr>, reg: int)
    requires Inv(s) && (skip == [] || skip == [OpJmp(NO_JUMP)])
    requires s'.code == s.code + skip + [OpLoadBool(reg, false, true), OpLoadBool(reg, true, false)]
    requires s' == s.(code := s'.code, jpc := if skip == [] then [] else [|s.code|] + s.jpc, lasttarget := |s'.code|)
    ensures Inv(s') && Frame(s, s', [])
  {
    LongerJumps(s.code, s'.code);
    LabelsFit(s, s', skip, reg);
    hide Inv, SameJump;
  }

  lemma LabelsFit(s: FS, s': FS, skip: seq<Instr>, reg: int)
    requires Inv(s) && (skip == [] || skip == [OpJmp(NO_JUMP)])
    requires s'.code == s.code + skip + [OpLoadBool(reg, false, true), OpLoadBool(reg, true, false)]
    requires s' == s.(code := s'.code, jpc := if skip == [] then [] else [|s.code|] + s.jpc, lasttarget := |s'.code|)
    ensures Inv(s') && Grows(s, s')
  {
    var n := |s.code|;
    DistinctConcat([n], s.jpc);
    LongerJumps(s.code, s'.code);
    hide SameJump;
    forall p | 0 <= p < |s'.code| && IsTest(s'.code[p]) ensures p + 1 < |s'.code| && s'.code[p + 1].OpJmp? {
      assert p < n && s'.code[p] == s.code[p] && s'.code[p + 1] == s.code[p + 1];
    }
    forall j | j in s'.jpc ensures Pending(s'.code, j) {
    }
  }

  lemma LongerJumps(code: seq<Instr>, code': seq<Instr>)
    requires |code| <= |code'| && code'[..|code|] == code
    ensures forall j :: Pending(code, j) ==> SameJump(code, code', j) && Pending(code', j)
  {
    assert forall p :: 0 <= p < |code| ==> code'[..|code|][p] == code'[p];
  }

  lemma TwoPatches(code: seq<Instr>, f: seq<int>, t: seq<int>, final: int, reg: int, pf: int, pt: int)
    requires PendingList(code, f) && PendingList(code, t) && Disjoint(f, t)
    ensures Patched(code, PatchListAux(PatchListAux(code, f, final, reg, pf), t, final, reg, pt),
                    f, t, final, reg, pf, pt)
  {
    hide PatchListAux, PatchedAt, SameJump;
    var code1 := PatchListAux(code, f, final, reg, pf);
    var code2 := PatchListAux(code1, t, final, reg, pt);
    PatchShape(code, f, final, reg, pf);
    forall j | j in t ensures SameJump(code, code1, j) && Pending(code, j) && Pending(code1, j) {
      PatchedJumps(code, code1, f, [], final, reg, pf, pf, j);
      SamePending(code, code1, j);
    }
    PatchShape(code1, t, final, reg, pt);
    forall i | 0 <= i < |code| ensures code2[i] == PatchedAt(code, i, f, t, final, reg, pf, pt) {
      PatchedTwice(code, code1, code2[i], f, t, final, reg, pf, pt, i);
    }
  }

  lemma PatchedTwice(code: seq<Instr>, code1: seq<Instr>, x: Instr, f: seq<int>, t: seq<int>,
                     final: int, reg: int, pf: int, pt: int, i: int)
    requires |code1| == |code| && 0 <= i < |code| && Disjoint(f, t)
    requires code1[i] == PatchedAt(code, i, f, [], final, reg, pf, pf)
    requires x == PatchedAt(code1, i, t, [], final, reg, pt, pt)
    requires forall j :: j in f ==> Pending(code, j)
    requires forall j :: j in t ==> SameJump(code, code1, j) && Pending(code, j)
    ensures x == PatchedAt(code, i, f, t, final, reg, pf, pt)
  {
    if i in t {
      assert SameJump(code, code1, i);
    } else if i + 1 in t {
      assert SameJump(code, code1, i + 1);
    }
    assert i in f || i in t ==> Pending(code, i);
    assert i + 1 in f || i + 1 in t ==> Pending(code, i + 1);
  }

  ghost predicate ToPatch(s: FS, e: Exp, t: seq<int>) {
    PendingList(s.code, t) && PendingList(s.code, e.f) && Disjoint(e.f, t) &&
    Disjoint(t, s.jpc) && Disjoint(e.f, s.jpc) && (e.k.VJmp? ==> s.jpc == [])
  }

  lemma PatchedFrame(s: FS, f: seq<int>, t: seq<int>, final: int, reg: int, pf: int, pt: int, own: seq<int>)
    requires Inv(s) && final == |s.code|
    requires PendingList(s.code, f) && PendingList(s.code, t) && Disjoint(f, t) && Disjoint(t, s.jpc)
    requires Disjoint(f, s.jpc)
    requires forall j :: j in f || j in t ==> j in own && Dest(s.code, j, f, final, pf, pt) <= final
    ensures var s' := s.(code := PatchListAux(PatchListAux(s.code, f, final, reg, pf), t, final, reg, pt),
                         lasttarget := final);
            Inv(s') && Frame(s, s', own)
  {
    var s' := s.(code := PatchListAux(PatchListAux(s.code, f, final, reg, pf), t, final, reg, pt), lasttarget := final);
    TwoPatches(s.code, f, t, final, reg, pf, pt);
    PatchedInv(s.code, s'.code, f, t, final, reg, pf, pt, s.lasttarget, final);
    forall j | Pending(s.code, j) && j !in f && j !in t ensures SameJump(s.code, s'.code, j) {
      PatchedJumps(s.code, s'.code, f, t, final, reg, pf, pt, j);
    }
    forall j | j in s.jpc ensures Pending(s'.code, j) {
      assert Pending(s.code, j) && SameJump(s.code, s'.code, j);
    }
  }

  lemma Exp2RegListsInv(s: FS, e: Exp, t: seq<int>, reg: int)
    requires Inv(s) && ToPatch(s, e, t)
    ensures var s' := Exp2RegLists(s, e, t, reg);
            Inv(s') && Frame(s, s', t + e.f) && s'.freereg == s.freereg
  {
    if NeedValue(s.code, t) || NeedValue(s.code, e.f) {
      var (s1, pf, pt) := LoadLabels(s, e, reg);
      LoadLabelsShape(s, e, reg);
      Exp2RegLabelled(s, s1, e, t, reg, pf, pt, Exp2RegLists(s, e, t, reg));
    } else if t + e.f != [] {
      PatchedFrame(s, e.f, t, |s.code|, reg, NO_JUMP, NO_JUMP, t + e.f);
    }
  }

  lemma Exp2RegLabelled(s: FS, s1: FS, e: Exp, t: seq<int>, reg: int, pf: int, pt: int, s2: FS)
    requires Inv(s) && ToPatch(s, e, t)
    requires var skip := if e.k.VJmp? then [] else [OpJmp(NO_JUMP)];
             s1.code == s.code + skip + [OpLoadBool(reg, false, true), OpLoadBool(reg, true, false)] &&
             s1 == s.(code := s1.code, jpc := if skip == [] then [] else [|s.code|] + s.jpc, lasttarget := |s1.code|)
    requires pf <= |s1.code| && pt <= |s1.code|
    requires s2 == s1.(code := PatchListAux(PatchListAux(s1.code, e.f, |s1.code|, reg, pf), t, |s1.code|, reg, pt),
                       lasttarget := |s1.code|)
    ensures Inv(s2) && Frame(s, s2, t + e.f) && s2.freereg == s.freereg
  {
    LoadLabelsInv(s, s1, if e.k.VJmp? then [] else [OpJmp(NO_JUMP)], reg);
    ListKept(s, s1, [], t);
    ListKept(s, s1, [], e.f);
    PatchedFrame(s1, e.f, t, |s1.code|, reg, pf, pt, t + e.f);
    FrameTrans(s, s1, s2, [], t + e.f, t + e.f);
  }

  lemma Exp2RegInv(s0: FS, e0: Exp, f0: int, reg: int)
    requires Inv(s0) && Usable(s0, e0, f0) && reg == f0
    ensures var (s, e) := Exp2Reg(s0, e0, reg);
            Inv(s) && Frame(s0, s, Own(e0)) && s.freereg == s0.freereg && e == Exp(VNonreloc(reg), [], []) &&
            Usable(s, e, f0)
  {
    var (s, e) := Discharge2Reg(s0, e0, reg);
    Discharge2RegInv(s0, e0, f0, reg);
    var t := if e.k.VJmp? then e.t + [e.k.pc] else e.t;
    if e.k.VJmp? {
      DistinctConcat(e.t, [e.k.pc]);
    }
    Exp2RegListsInv(s, e, t, reg);
    FrameTrans(s0, s, Exp2Reg(s0, e0, reg).0, [], t + e.f, Own(e0));
  }

  // Taking or giving back registers.
  lemma FrameRegs(s0: FS, s: FS, s': FS, own: seq<int>)
    requires Frame(s0, s, own)
    requires s'.code == s.code && s'.jpc == s.jpc && s'.k == s.k && s'.lasttarget == s.lasttarget
    requires s'.nactvar == s.nactvar && (s.overflow ==> s'.overflow)
    ensures Frame(s0, s', own)
  {
  }

  lemma Exp2NextRegInv(s0: FS, e0: Exp, f0: int)
    requires Inv(s0) && ExpInv(s0, e0, f0)
    ensures var (s, e) := Exp2NextReg(s0, e0);
            Inv(s) && Frame(s0, s, Own(e0)) && ExpInv(s, e, f0) && e == Exp(VNonreloc(f0), [], [])
  {
    hide Exp2RegLists;
    var (s, e) := DischargeVars(s0, e0);
    DischargeVarsInv(s0, e0, f0);
    var s1 := ReserveRegs(FreeExp(s, e), 1);
    hide Exp2Reg, Frame, Inv, DischargeVars;
    NextRegInv(s, s1, e, f0);
    FrameTrans(s0, s, Exp2Reg(s1, e, f0).0, [], Own(e), Own(e0));
  }

  lemma NextRegInv(s: FS, s1: FS, e: Exp, f0: int)
    requires Inv(s) && ExpInv(s, e, f0) && s1 == ReserveRegs(FreeExp(s, e), 1)
    ensures s1.freereg == f0 + 1
    ensures var (s', e') := Exp2Reg(s1, e, f0);
            Inv(s') && Frame(s, s', Own(e)) && Usable(s', e', f0) && s'.freereg == f0 + 1
  {
    assert Inv(s1) && Usable(s1, e, f0);
    assert Frame(s, s1, []) && Fresh(s, Own(e), Own(e));
    hide Exp2Reg, Frame, Inv, Usable;
    Exp2RegInv(s1, e, f0, f0);
    FrameTrans(s, s1, Exp2Reg(s1, e, f0).0, [], Own(e), Own(e));
  }

  lemma Exp2AnyRegInv(s0: FS, e0: Exp, f0: int)
    requires Inv(s0) && ExpInv(s0, e0, f0)
    ensures var (s, e) := Exp2AnyReg(s0, e0);
            Inv(s) && Frame(s0, s, Own(e0)) && ExpInv(s, e, f0) && e == Exp(VNonreloc(e.k.reg), [], [])
  {
    hide Exp2Reg, Exp2NextReg, DischargeVars;
    var (s, e) := DischargeVars(s0, e0);
    DischargeVarsInv(s0, e0, f0);
    if e.k.VNonreloc? && !HasJumps(e) {
    } else if e.k.VNonreloc? && e.k.reg >= s.nactvar {
      hide Frame, Inv;
      Exp2RegInv(s, e, f0, f0);
      FrameTrans(s0, s, Exp2Reg(s, e, f0).0, [], Own(e), Own(e0));
    } else {
      hide Frame, Inv;
      Exp2NextRegInv(s, e, f0);
      FrameTrans(s0, s, Exp2NextReg(s, e).0, [], Own(e), Own(e0));
    }
  }

  // No jumps and no pending instruction: a value that is simply there.
  predicate Simple(e: Exp) {
    !HasJumps(e) && (e.k.VNil? || e.k.VTrue? || e.k.VFalse? || e.k.VK? || e.k.VKNum? || e.k.VNonreloc?)
  }

  lemma Exp2ValInv(s0: FS, e0: Exp, f0: int)
    requires Inv(s0) && ExpInv(s0, e0, f0)
    ensures var (s, e) := Exp2Val(s0, e0);
            Inv(s) && Frame(s0, s, Own(e0)) && ExpInv(s, e, f0) && Fresh(s0, Own(e0), Own(e)) &&
            !HasJumps(e) && !e.k.VLocal? && !e.k.VUpval?
  {
    if HasJumps(e0) {
      Exp2AnyRegInv(s0, e0, f0);
    } else {
      DischargeVarsInv(s0, e0, f0);
    }
  }

  lemma AddKInv(s: FS, v: Value)
    requires Inv(s)
    ensures var (s', i) := AddK(s, v);
            Inv(s') && Frame(s, s', []) && s' == s.(k := s'.k) && 0 <= i < |s'.k| && s'.k[i] == v
  {
  }

  lemma Exp2RKInv(s0: FS, e0: Exp, f0: int)
    requires Inv(s0) && ExpInv(s0, e0, f0)
    ensures var (s, e, o) := Exp2RK(s0, e0);
            Inv(s) && Frame(s0, s, Own(e0)) && ExpInv(s, e, f0) && Simple(e) &&
            (if o.K? then e.k == VK(o.idx) else e.k == VNonreloc(o.reg))
  {
    var (s, e) := Exp2Val(s0, e0);
    Exp2ValInv(s0, e0, f0);
    if IsConst(e.k) && |s.k| <= MAXINDEXRK {
      AddKInv(s, ConstValue(e.k));
      hide Exp2AnyReg, Exp2Val;
      FrameTrans(s0, s, AddK(s, ConstValue(e.k)).0, Own(e0), [], Own(e0));
    } else if e.k.VK? && e.k.idx <= MAXINDEXRK {
    } else {
      Exp2AnyRegInv(s, e, f0);
      hide Exp2AnyReg, Exp2Val;
      FrameTrans(s0, s, Exp2AnyReg(s, e).0, Own(e0), Own(e), Own(e0));
    }
  }

  lemma InvertJumpInv(s: FS, e: Exp, f0: int)
    requires Inv(s) && ExpInv(s, e, f0) && e.k.VJmp?
    ensures var s' := InvertJump(s, e.k.pc);
            Inv(s') && ExpInv(s', e, f0) && Frame(s, s', Own(e)) && |s'.code| == |s.code|
    ensures forall j :: Pending(s.code, j) && j != e.k.pc ==> SameJump(s.code, InvertJump(s, e.k.pc).code, j)
  {
    var s' := InvertJump(s, e.k.pc);
    forall j | Pending(s.code, j) && j != e.k.pc ensures SameJump(s.code, s'.code, j) && Pending(s'.code, j) {
    }
    forall p | 0 <= p < |s'.code| && IsTest(s'.code[p]) ensures p + 1 < |s'.code| && s'.code[p + 1].OpJmp? {
      assert IsTest(s.code[p]);
    }
    assert LandsBy(s'.code, s.lasttarget);
  }

  ghost predicate JumpedInv(s: FS, s': FS, l: seq<int>, f0: int) {
    Inv(s') && Frame(s, s', []) && s'.jpc == [] && s'.freereg == f0 &&
    l == [|s'.code| - 1] && l[0] >= |s.code| && Pending(s'.code, l[0])
  }

  // The code without the OP_NOT at its end.
  lemma WithoutNot(s: FS, e: Exp, f0: int)
    requires Inv(s) && ExpInv(s, e, f0) && e.k.VReloc?
    ensures var s1 := s.(code := s.code[..|s.code| - 1]); Inv(s1) && |s.code| > 0
    ensures s.jpc == [] && s.freereg == f0 && forall j :: Pending(s.code, j) ==> j < |s.code| - 1
  {
    var s1 := s.(code := s.code[..|s.code| - 1]);
    forall p | 0 <= p < |s1.code| && IsTest(s1.code[p]) ensures p + 1 < |s1.code| && s1.code[p + 1].OpJmp? {
      assert IsTest(s.code[p]) && s.code[p + 1].OpJmp?;
    }
  }

  lemma NotJumpInv(s: FS, e: Exp, i: Instr, f0: int)
    requires Inv(s) && ExpInv(s, e, f0) && e.k.VReloc? && IsTest(i)
    ensures var s1 := s.(code := s.code[..|s.code| - 1]);
            Inv(s1) && JumpedInv(s, CondJump(s1, i).0, CondJump(s1, i).1, f0)
  {
    hide Inv, ExpInv;
    WithoutNot(s, e, f0);
    var s1 := s.(code := s.code[..|s.code| - 1]);
    CondJumpInv(s1, i);
    var s' := CondJump(s1, i).0;
    forall j | Pending(s.code, j) ensures SameJump(s.code, s'.code, j) {
      assert Pending(s1.code, j) && SameJump(s1.code, s'.code, j);
    }
  }

  lemma TestJumpInv(s: FS, s1: FS, s2: FS, i: Instr, f0: int)
    requires Inv(s1) && Frame(s, s1, []) && IsTest(i)
    requires s2 == s1.(freereg := f0) && Inv(s2) && |s1.code| >= |s.code|
    ensures JumpedInv(s, CondJump(s2, i).0, CondJump(s2, i).1, f0)
  {
    FrameRegs(s, s1, s2, []);
    CondJumpInv(s2, i);
    FrameTrans(s, s2, CondJump(s2, i).0, [], [], []);
  }

  lemma JumpOnCondInv(s: FS, e: Exp, cond: bool, f0: int)
    requires Inv(s) && ExpInv(s, e, f0) && !e.k.VJmp?
    ensures JumpedInv(s, JumpOnCond(s, e, cond).0, JumpOnCond(s, e, cond).1, f0)
  {
    hide Discharge2AnyReg;
    if e.k.VReloc? && s.code[e.k.pc].OpNot? {
      NotJumpInv(s, e, OpTest(s.code[e.k.pc].b, !cond), f0);
    } else {
      var (s1, e1) := Discharge2AnyReg(s, e);
      Discharge2AnyRegInv(s, e, f0);
      hide Discharge2AnyReg, CondJump, JumpedInv;
      TestJumpInv(s, s1, FreeExp(s1, e1), OpTestSet(NO_REG, RegOf(e1), cond), f0);
    }
  }

  // The new list of a left operand: its old one and the new jumps.
  ghost predicate GoneInv(s0: FS, e0: Exp, s: FS, list: seq<int>, f0: int) {
    Inv(s) && Frame(s0, s, Own(e0)) && s.freereg == f0 &&
    PendingList(s.code, list) && Disjoint(list, s.jpc) && Fresh(s0, Own(e0), list)
  }

  // Adding the new jumps l to one list and landing the other one here.
  lemma GoInv(s: FS, e: Exp, s1: FS, l: seq<int>, keep: seq<int>, drop: seq<int>, f0: int)
    requires ListsInv(s, e) && Inv(s1) && Frame(s, s1, l) && s1.freereg == f0
    requires (keep == e.f && drop == e.t) || (keep == e.t && drop == e.f)
    requires s1.jpc == [] || s1.jpc == s.jpc
    requires PendingList(s1.code, l) && Disjoint(l, s1.jpc)
    requires Disjoint(keep, l) && Disjoint(drop, l)
    requires forall j :: j in l ==> j >= |s.code| || j in s.jpc || j in Own(e)
    ensures GoneInv(s, e, PatchToHere(s1, drop), keep + l, f0)
  {
    ListKept(s, s1, l, keep);
    ListKept(s, s1, l, drop);
    DistinctConcat(keep, l);
    DistinctConcat(s1.jpc, drop);
    assert Disjoint(keep, drop);
    var s' := PatchToHere(s1, drop);
    assert Inv(s');
    forall j | Pending(s.code, j) && j !in s.jpc && j !in Own(e) ensures SameJump(s.code, s'.code, j) && j !in s'.jpc {
      assert j !in l;
    }
  }

  lemma GoneTrans(s0: FS, e0: Exp, s: FS, e: Exp, s': FS, list: seq<int>, f0: int)
    requires Frame(s0, s, []) && Own(e0) == Own(e) && GoneInv(s, e, s', list, f0)
    ensures GoneInv(s0, e0, s', list, f0)
  {
    FrameTrans(s0, s, s', [], Own(e), Own(e0));
  }

  ghost predicate GoJumpInv(s: FS, e: Exp, s': FS, l: seq<int>, f0: int) {
    && Inv(s') && Frame(s, s', l) && s'.freereg == f0 && (s'.jpc == [] || s'.jpc == s.jpc)
    && PendingList(s'.code, l) && Disjoint(l, s'.jpc) && Disjoint(e.f, l) && Disjoint(e.t, l)
    && forall j :: j in l ==> j >= |s.code| || j in s.jpc || j in Own(e)
  }

  lemma NewJump(s: FS, e: Exp, s': FS, l: seq<int>, f0: int)
    requires ListsInv(s, e) && JumpedInv(s, s', l, f0)
    ensures GoJumpInv(s, e, s', l, f0)
  {
    FrameTrans(s, s', s', [], l, l);
    forall j | j in e.t || j in e.f ensures j !in l {
      assert Pending(s.code, j);
    }
  }

  lemma ConstantGo(s: FS, e: Exp, f0: int)
    requires Inv(s) && ListsInv(s, e) && s.freereg == f0
    ensures GoJumpInv(s, e, Jump(s).0, Jump(s).1, f0)
  {
    JumpInv(s);
    var (s', l) := Jump(s);
    forall j | j in e.t || j in e.f ensures j !in l {
      assert Pending(s.code, j);
    }
  }

  lemma NoJump(s: FS, e: Exp, f0: int)
    requires Inv(s) && ListsInv(s, e) && s.freereg == f0
    ensures GoJumpInv(s, e, s, [], f0)
  {
  }

  lemma InvertedGo(s: FS, e: Exp, f0: int)
    requires Inv(s) && ExpInv(s, e, f0) && e.k.VJmp?
    ensures GoJumpInv(s, e, InvertJump(s, e.k.pc), [e.k.pc], f0)
  {
    hide LandsBy, TestsPaired;
    InvertJumpInv(s, e, f0);
  }

  lemma JumpIfFalseInv(s: FS, e: Exp, f0: int)
    requires Inv(s) && ExpInv(s, e, f0) && !e.k.VLocal? && !e.k.VUpval?
    ensures GoJumpInv(s, e, JumpIfFalse(s, e).0, JumpIfFalse(s, e).1, f0)
  {
    hide Inv, GoJumpInv, JumpOnCond, JumpedInv;
    match e.k {
      case VK(_) => NoJump(s, e, f0);
      case VKNum(_) => NoJump(s, e, f0);
      case VTrue => NoJump(s, e, f0);
      case VFalse => ConstantGo(s, e, f0);
      case VJmp(pc) => InvertedGo(s, e, f0);
      case _ =>
        JumpOnCondInv(s, e, false, f0);
        NewJump(s, e, JumpOnCond(s, e, false).0, JumpOnCond(s, e, false).1, f0);
    }
  }

  lemma JumpIfTrueInv(s: FS, e: Exp, f0: int)
    requires Inv(s) && ExpInv(s, e, f0) && !e.k.VLocal? && !e.k.VUpval?
    ensures GoJumpInv(s, e, JumpIfTrue(s, e).0, JumpIfTrue(s, e).1, f0)
  {
    match e.k {
      case VNil =>
      case VFalse =>
      case VTrue => ConstantGo(s, e, f0);
      case VJmp(pc) =>
      case _ =>
        hide JumpOnCond, GoJumpInv, JumpedInv;
        JumpOnCondInv(s, e, true, f0);
        NewJump(s, e, JumpOnCond(s, e, true).0, JumpOnCond(s, e, true).1, f0);
    }
  }

  lemma GoIfTrueInv(s0: FS, e0: Exp, f0: int)
    requires Inv(s0) && ExpInv(s0, e0, f0)
    ensures var (s, e) := GoIfTrue(s0, e0); e.t == [] && GoneInv(s0, e0, s, e.f, f0)
  {
    var (s, e) := DischargeVars(s0, e0);
    DischargeVarsInv(s0, e0, f0);
    JumpIfFalseInv(s, e, f0);
    hide JumpIfFalse;
    var (s', l) := JumpIfFalse(s, e);
    GoInv(s, e, s', l, e.f, e.t, f0);
    GoneTrans(s0, e0, s, e, PatchToHere(s', e.t), e.f + l, f0);
  }

  lemma GoIfFalseInv(s0: FS, e0: Exp, f0: int)
    requires Inv(s0) && ExpInv(s0, e0, f0)
    ensures var (s, e) := GoIfFalse(s0, e0); e.f == [] && GoneInv(s0, e0, s, e.t, f0)
  {
    var (s, e) := DischargeVars(s0, e0);
    DischargeVarsInv(s0, e0, f0);
    JumpIfTrueInv(s, e, f0);
    hide JumpIfTrue;
    var (s', l) := JumpIfTrue(s, e);
    GoInv(s, e, s', l, e.t, e.f, f0);
    GoneTrans(s0, e0, s, e, PatchToHere(s', e.f), e.t + l, f0);
  }

  // ----- operators -----

  // From state s, with jumps `own' in hand, to descriptor e' usable in state s'.
  ghost predicate Stepped(s: FS, own: seq<int>, s': FS, e': Exp, f0: int) {
    Inv(s') && ExpInv(s', e', f0) && Frame(s, s', own) && Fresh(s, own, Own(e'))
  }

  lemma SteppedTrans(s: FS, s1: FS, own0: seq<int>, own1: seq<int>, own: seq<int>, s': FS, e': Exp, f0: int)
    requires Frame(s, s1, own0) && Stepped(s1, own1, s', e', f0)
    requires Fresh(s, own, own1) && forall j :: j in own0 ==> j in own
    ensures Stepped(s, own, s', e', f0)
  {
    FrameTrans(s, s1, s', own0, own1, own);
  }

  // RemoveValues turns the test sets of the listed jumps into tests.
  ghost predicate Removed(code: seq<Instr>, code': seq<Instr>, list: seq<int>) {
    |code'| == |code| &&
    forall i {:trigger code'[i]} {:trigger code[i]} :: 0 <= i < |code| ==> code'[i] == RemovedAt(code, i, list)
  }

  function RemovedAt(code: seq<Instr>, i: int, list: seq<int>): Instr
    requires 0 <= i < |code|
  {
    if i + 1 in list && code[i].OpTestSet? then OpTest(code[i].b, code[i].cond) else code[i]
  }

  lemma {:induction false} RemoveShape(code: seq<Instr>, list: seq<int>)
    requires forall j :: j in list ==> Pending(code, j)
    ensures Removed(code, RemoveValues(code, list), list)
    decreases list
  {
    if list != [] {
      var j, rest := list[0], list[1..];
      var code1 := PatchTestReg(code, j, NO_REG);
      var code2 := RemoveValues(code1, rest);
      assert list == [j] + rest;
      assert Pending(code, j);
      forall i | 0 <= i < |code| ensures code1[i] == RemovedAt(code, i, [j]) {
      }
      forall i | i in rest ensures Pending(code1, i) {
        assert Pending(code, i);
      }
      RemoveShape(code1, rest);
      forall i | 0 <= i < |code| ensures code2[i] == RemovedAt(code, i, list) {
        assert code2[i] == RemovedAt(code1, i, rest);
        assert code1[i] == RemovedAt(code, i, [j]);
        assert i + 1 in list <==> i + 1 == j || i + 1 in rest;
      }
    }
  }

  lemma RemoveTwice(code: seq<Instr>, l1: seq<int>, l2: seq<int>)
    requires forall j :: j in l1 || j in l2 ==> Pending(code, j)
    ensures Removed(code, RemoveValues(RemoveValues(code, l1), l2), l1 + l2)
  {
    RemoveShape(code, l1);
    var code1 := RemoveValues(code, l1);
    forall j | j in l2 ensures Pending(code1, j) {
      assert Pending(code, j);
      assert code1[j] == RemovedAt(code, j, l1);
    }
    RemoveShape(code1, l2);
    var code2 := RemoveValues(code1, l2);
    forall i | 0 <= i < |code| ensures code2[i] == RemovedAt(code, i, l1 + l2) {
      assert code1[i] == RemovedAt(code, i, l1);
      assert code2[i] == RemovedAt(code1, i, l2);
    }
  }

  lemma RemovedJumps(code: seq<Instr>, code': seq<Instr>, own: seq<int>, j: int)
    requires Removed(code, code', own) && Pending(code, j)
    ensures Pending(code', j) && (j !in own ==> SameJump(code, code', j))
  {
    assert code'[j] == RemovedAt(code, j, own);
    if j > 0 { assert code'[j - 1] == RemovedAt(code, j - 1, own); }
  }

  lemma RemovedCode(code: seq<Instr>, code': seq<Instr>, own: seq<int>, last: int)
    requires Removed(code, code', own) && TestsPaired(code) && LandsBy(code, last)
    ensures TestsPaired(code') && LandsBy(code', last)
  {
    forall p | 0 <= p < |code'| && IsTest(code'[p]) ensures p + 1 < |code'| && code'[p + 1].OpJmp? {
      assert code'[p] == RemovedAt(code, p, own) && IsTest(code[p]);
      assert code'[p + 1] == RemovedAt(code, p + 1, own);
    }
  }

  lemma RemovedInv(s: FS, s': FS, e: Exp, own: seq<int>, f0: int)
    requires Inv(s) && ExpInv(s, e, f0)
    requires own == e.t + e.f && Removed(s.code, s'.code, own) && s' == s.(code := s'.code)
    ensures Stepped(s, Own(e), s', Exp(e.k, e.f, e.t), f0)
  {
    RemovedCode(s.code, s'.code, own, s.lasttarget);
    forall j | Pending(s.code, j) ensures Pending(s'.code, j) && (j !in own ==> SameJump(s.code, s'.code, j)) {
      RemovedJumps(s.code, s'.code, own, j);
    }
    hide Removed, SameJump, TestsPaired, LandsBy;
    assert Inv(s');
    assert KindInv(s', Exp(e.k, e.f, e.t), f0) by {
      RemovedKind(s, s', e, own, f0);
    }
    assert forall j :: j in e.f ==> j !in e.t;
    assert Grows(s, s') by {
      RemovedKind(s, s', e, own, f0);
    }
  }

  lemma RemovedKind(s: FS, s': FS, e: Exp, own: seq<int>, f0: int)
    requires Inv(s) && ExpInv(s, e, f0)
    requires own == e.t + e.f && Removed(s.code, s'.code, own) && s' == s.(code := s'.code)
    ensures KindInv(s', Exp(e.k, e.f, e.t), f0) && Grows(s, s')
  {
    var n := |s.code|;
    if n > 0 { assert s'.code[n - 1] == RemovedAt(s.code, n - 1, own); }
    if n > 1 { assert s'.code[n - 2] == RemovedAt(s.code, n - 2, own); }
  }

  lemma NegateInv(s: FS, e: Exp, f0: int)
    requires Inv(s) && ExpInv(s, e, f0) && !e.k.VLocal? && !e.k.VUpval?
    ensures var (s', k') := Negate(s, e); Stepped(s, Own(e), s', e.(k := k'), f0)
  {
    hide Discharge2AnyReg, Emit, InvertJump, Frame;
    if e.k.VNil? || e.k.VFalse? || e.k.VK? || e.k.VKNum? || e.k.VTrue? {
      FrameRefl(s);
      MoreOwn(s, s, [], Own(e));
    } else if e.k.VJmp? {
      InvertJumpInv(s, e, f0);
    } else {
      NegateValueInv(s, e, f0);
    }
  }

  lemma NegateValueInv(s: FS, e: Exp, f0: int)
    requires Inv(s) && ExpInv(s, e, f0) && (e.k.VNonreloc? || e.k.VReloc?)
    ensures var (s', k') := Negate(s, e); Stepped(s, Own(e), s', e.(k := k'), f0)
  {
    hide Discharge2AnyReg, Emit, Frame, Stepped;
    var (s1, e1) := Discharge2AnyReg(s, e);
    Discharge2AnyRegInv(s, e, f0);
    var s2, i := FreeExp(s1, e1), OpNot(0, RegOf(e1));
    FrameRegs(s, s1, s2, []);
    FrameRefl(s);
    MoreOwn(s, s2, [], Own(e));
    EmitReloc(s, s2, i, e1, f0);
  }

  lemma MoreOwn(s: FS, s': FS, own0: seq<int>, own: seq<int>)
    requires Frame(s, s', own0) && forall j :: j in own0 ==> j in own
    ensures Frame(s, s', own)
  {
  }

  // Emitting the instruction that computes the value of e'.
  lemma EmitReloc(s: FS, s2: FS, i: Instr, e: Exp, f0: int)
    requires Inv(s2) && Frame(s, s2, Own(e)) && Fresh(s, Own(e), Own(e)) && ListsInv(s2, e) && !e.k.VJmp?
    requires s2.freereg == f0 >= s2.nactvar && IsValueInstr(i) && ConcatFrom(i, f0)
    ensures Stepped(s, Own(e), Emit(s2, i), e.(k := VReloc(|s2.code|)), f0)
  {
    EmitInv(s2, i);
    var s3 := Emit(s2, i);
    hide Emit;
    ListKept(s2, s3, [], e.t);
    ListKept(s2, s3, [], e.f);
    FrameTrans(s, s2, s3, Own(e), [], Own(e));
  }

  lemma CodeNotInv(s0: FS, e0: Exp, f0: int)
    requires Inv(s0) && ExpInv(s0, e0, f0)
    ensures var (s, e) := CodeNot(s0, e0); Stepped(s0, Own(e0), s, e, f0)
  {
    var (s, e) := DischargeVars(s0, e0);
    DischargeVarsInv(s0, e0, f0);
    NegateInv(s, e, f0);
    var (s1, k1) := Negate(s, e);
    var (s2, e2) := CodeNot(s0, e0);
    RemoveTwice(s1.code, e.t, e.f);
    RemovedInv(s1, s2, e.(k := k1), e.t + e.f, f0);
    hide CodeNot, Negate, DischargeVars, Stepped;
    NotSteps(s0, e0, s, e, s1, k1, s2, f0);
  }

  lemma NotSteps(s0: FS, e0: Exp, s: FS, e: Exp, s1: FS, k1: Kind, s2: FS, f0: int)
    requires Frame(s0, s, []) && Own(e0) == Own(e)
    requires Stepped(s, Own(e), s1, e.(k := k1), f0)
    requires Stepped(s1, Own(e.(k := k1)), s2, Exp(k1, e.f, e.t), f0)
    ensures Stepped(s0, Own(e0), s2, Exp(k1, e.f, e.t), f0)
  {
    hide Frame, Inv, ExpInv, Fresh;
    SteppedTrans(s, s1, Own(e), Own(e.(k := k1)), Own(e), s2, Exp(k1, e.f, e.t), f0);
    FrameTrans(s0, s, s2, [], Own(e), Own(e0));
    SteppedTrans(s0, s, [], Own(e), Own(e0), s2, Exp(k1, e.f, e.t), f0);
  }

  ghost predicate Operand(s: FS, e: Exp, o: RK) {
    Simple(e) && if o.K? then e.k == VK(o.idx) else e.k == VNonreloc(o.reg)
  }

  // Registers f0 (and f0 + 1) are taken by the operands that need one.
  ghost predicate TwoOperands(s: FS, e1: Exp, e2: Exp, f0: int) {
    var t1 := e1.k.VNonreloc? && e1.k.reg >= s.nactvar;
    var t2 := e2.k.VNonreloc? && e2.k.reg >= s.nactvar;
    && s.nactvar <= f0
    && s.freereg == f0 + (if t1 then 1 else 0) + (if t2 then 1 else 0)
    && (t1 ==> e1.k.reg == f0 || (t2 && e1.k.reg == f0 + 1))
    && (t2 ==> e2.k.reg == f0 || (t1 && e2.k.reg == f0 + 1))
    && (t1 && t2 ==> e1.k.reg != e2.k.reg)
  }

  // Registers are given back in stack order: each free undoes the last reserve.
  lemma FreeBothRegs(s: FS, e1: Exp, e2: Exp, o1: RK, o2: RK, f0: int)
    requires Inv(s) && Operand(s, e1, o1) && Operand(s, e2, o2) && TwoOperands(s, e1, e2, f0)
    ensures FreeBoth(s, e1, e2, o1, o2) == s.(freereg := f0) && Inv(s.(freereg := f0))
    ensures FreeInOrder(s, e1, e2, o1, o2)
  {
  }

  // What freereg asserts: the register freed is the topmost one.
  ghost predicate FreesTop(s: FS, e: Exp) {
    e.k.VNonreloc? && e.k.reg >= s.nactvar ==> e.k.reg == s.freereg - 1
  }

  ghost predicate FreeInOrder(s: FS, e1: Exp, e2: Exp, o1: RK, o2: RK) {
    if Above(o1, o2) then FreesTop(s, e1) && FreesTop(FreeExp(s, e1), e2)
    else FreesTop(s, e2) && FreesTop(FreeExp(s, e2), e1)
  }

  // A first operand, waiting while the second is compiled from register f1 on.
  ghost predicate Waiting(s: FS, e: Exp, f0: int, f1: int) {
    && !HasJumps(e) && s.nactvar <= f0 && f1 == FreeAfter(s, e, f0)
    && match e.k
       case VNonreloc(r) => 0 <= r < s.nactvar || r == f0
       case VK(i) => 0 <= i < |s.k| && i <= MAXINDEXRK
       case VKNum(_) => true
       case _ => false
  }

  lemma FirstOperandInv(s: FS, e: Exp, f0: int, f1: int)
    requires Inv(s) && Waiting(s, e, f0, f1) && f1 <= s.freereg
    ensures var (s', e', o) := Exp2RK(s, e);
            Inv(s') && Frame(s, s', []) && Operand(s', e', o) &&
            (if e.k.VKNum? && e'.k.VNonreloc? then s'.freereg == s.freereg + 1 && e'.k.reg == s.freereg
             else s'.freereg == s.freereg && (e.k.VNonreloc? ==> e'.k == e.k) && (!e.k.VNonreloc? ==> e'.k.VK?)) &&
            (!e.k.VKNum? ==> s' == s && e' == e)
  {
    hide Inv, Exp2RK;
    if e.k.VKNum? {
      hide Waiting;
      NumeralInv(s, e);
    } else {
      OperandStays(s, e, f0, f1);
      hide Waiting;
      FrameRefl(s);
    }
  }

  lemma NumeralInv(s: FS, e: Exp)
    requires Inv(s) && e.k.VKNum? && !HasJumps(e)
    ensures var (s', e', o) := Exp2RK(s, e);
            Inv(s') && Frame(s, s', []) && Operand(s', e', o) &&
            if e'.k.VNonreloc? then s'.freereg == s.freereg + 1 && e'.k.reg == s.freereg
            else s'.freereg == s.freereg && e'.k.VK?
  {
    hide Exp2RK, TestsPaired, LandsBy, Frame;
    assert Own(e) == [];
    NumeralLands(s, e);
    Exp2RKInv(s, e, s.freereg);
  }

  lemma NumeralLands(s: FS, e: Exp)
    requires e.k.VKNum? && !HasJumps(e)
    ensures var (s', e', o) := Exp2RK(s, e);
            if e'.k.VNonreloc? then s'.freereg == s.freereg + 1 && e'.k.reg == s.freereg
            else s'.freereg == s.freereg && e'.k.VK?
  {
    hide CodeGen.PatchListAux;
  }

  lemma OperandStays(s: FS, e: Exp, f0: int, f1: int)
    requires Waiting(s, e, f0, f1) && !e.k.VKNum?
    ensures Exp2RK(s, e) == (s, e, if e.k.VK? then K(e.k.idx) else R(e.k.reg)) && Simple(e)
  {
  }

  lemma CodeArithInv(ops: Ops, s: FS, op: ArithOp, e1: Exp, e2: Exp, f0: int, f1: int)
    requires Inv(s) && Waiting(s, e1, f0, f1) && ExpInv(s, e2, f1)
    ensures var (s', e') := CodeArith(ops, s, op, e1, e2); Stepped(s, Own(e2), s', e', f0)
  {
    hide Exp2RK, ConstFolding, Emit, FreeBoth, Stepped;
    var folded := ConstFolding(ops, op, e1, e2);
    if folded.None? {
      CodeArithRun(s, op, e1, e2, f0, f1);
    } else {
      FoldedSteps(ops, s, op, e1, e2, f0, f1, folded.value);
    }
  }

  lemma FoldedSteps(ops: Ops, s: FS, op: ArithOp, e1: Exp, e2: Exp, f0: int, f1: int, n: real)
    requires Inv(s) && Waiting(s, e1, f0, f1) && ExpInv(s, e2, f1) && ConstFolding(ops, op, e1, e2) == Some(n)
    ensures Stepped(s, Own(e2), s, e1.(k := VKNum(n)), f0)
  {
    FrameRefl(s);
    MoreOwn(s, s, [], Own(e2));
    hide Frame;
  }

  lemma CodeArithRun(s: FS, op: ArithOp, e1: Exp, e2: Exp, f0: int, f1: int)
    requires Inv(s) && Waiting(s, e1, f0, f1) && ExpInv(s, e2, f1)
    ensures var (s1, e2', o2) := Exp2RK(s, e2);
            var (s2, e1', o1) := Exp2RK(s1, e1);
            var s3 := FreeBoth(s2, e1', e2', o1, o2);
            Stepped(s, Own(e2), Emit(s3, OpArith(op, 0, o1, o2)), e1'.(k := VReloc(|s3.code|)), f0)
  {
    hide Exp2RK, Emit, FreeBoth, Stepped, Inv, Frame;
    var (s1, e2', o2) := Exp2RK(s, e2);
    Exp2RKInv(s, e2, f1);
    var (s2, e1', o1) := Exp2RK(s1, e1);
    WaitingGrows(s, s1, Own(e2), e1, f0, f1);
    RegsInUse(s1, e2', f1);
    FirstOperandInv(s1, e1, f0, f1);
    TwoReady(s1, e1, e2', o2, s2, e1', o1, f0, f1);
    FreeBothRegs(s2, e1', e2', o1, o2, f0);
    SameActive(s1, s2);
    ArithSteps(s, s1, s2, FreeBoth(s2, e1', e2', o1, o2), e1', OpArith(op, 0, o1, o2), Own(e2), f0);
  }

  lemma TwoReady(m1: FS, a1: Exp, a2: Exp, o2: RK, m2: FS, a1': Exp, o1: RK, f0: int, f1: int)
    requires Inv(m1) && Inv(m2) && ExpInv(m1, a2, f1) && Operand(m1, a2, o2) && Waiting(m1, a1, f0, f1)
    requires f1 <= m1.freereg
    requires (m2, a1', o1) == Exp2RK(m1, a1)
    ensures Operand(m2, a1', o1) && Operand(m2, a2, o2) && TwoOperands(m2, a1', a2, f0) && !a1'.k.VJmp?
  {
    FirstOperandInv(m1, a1, f0, f1);
    hide Exp2RK;
  }

  lemma SameActive(s: FS, s': FS)
    requires Frame(s, s', [])
    ensures s'.nactvar == s.nactvar
  {
  }

  lemma WaitingGrows(s: FS, s1: FS, own: seq<int>, e: Exp, f0: int, f1: int)
    requires Waiting(s, e, f0, f1) && Frame(s, s1, own)
    ensures Waiting(s1, e, f0, f1)
  {
  }

  lemma RegsInUse(s: FS, e: Exp, f0: int)
    requires Inv(s) && ExpInv(s, e, f0)
    ensures 0 <= s.nactvar <= f0 <= s.freereg
  {
  }

  lemma ArithSteps(s: FS, s1: FS, s2: FS, s3: FS, e: Exp, i: Instr, own: seq<int>, f0: int)
    requires Inv(s3) && Frame(s, s1, own) && Frame(s1, s2, []) && s3 == s2.(freereg := f0) && s3.nactvar <= f0
    requires !HasJumps(e) && !e.k.VJmp? && IsValueInstr(i) && ConcatFrom(i, f0)
    ensures Stepped(s, own, Emit(s3, i), e.(k := VReloc(|s3.code|)), f0)
  {
    FrameTrans(s, s1, s2, own, [], own);
    FrameRegs(s, s2, s3, own);
    FrameTrans(s3, s3, s3, [], [], []);
    EmitReloc(s3, s3, i, e, f0);
    hide Emit, Frame, Inv, ExpInv, IsValueInstr;
    SteppedTrans(s, s3, own, [], own, Emit(s3, i), e.(k := VReloc(|s3.code|)), f0);
  }

  lemma CodeUnaryInv(ops: Ops, s: FS, op: UnOpr, e: Exp, f0: int)
    requires Inv(s) && ExpInv(s, e, f0) && !op.NotOpr?
    requires op.LenOpr? ==> e.k.VNonreloc? && !HasJumps(e)
    ensures var (s', e') := CodeUnary(ops, s, op, e); Stepped(s, Own(e), s', e', f0)
  {
    if op.MinusOpr? && IsNumeral(e) && !ops.isNaN(ops.unm(e.k.nval)) {
    } else if op.BNotOpr? && IsNumeral(e) {
    } else {
      var (s1, e1, o1) := Exp2RK(s, e);
      Exp2RKInv(s, e, f0);
      hide Exp2RK;
      var s3 := FreeExp(s1, e1);
      var i := if op.MinusOpr? then OpUnm(0, o1)
               else if op.BNotOpr? then OpBNot(0, o1)
               else OpLen(0, RegOf(e1));
      UnarySteps(s, s1, s3, e1, i, Own(e), f0);
    }
  }

  lemma UnarySteps(s: FS, s1: FS, s3: FS, e: Exp, i: Instr, own: seq<int>, f0: int)
    requires Inv(s1) && Frame(s, s1, own) && s3 == s1.(freereg := f0)
    requires s1.nactvar <= f0 <= s1.freereg
    requires !HasJumps(e) && !e.k.VJmp? && IsValueInstr(i) && ConcatFrom(i, f0)
    ensures Stepped(s, own, Emit(s3, i), e.(k := VReloc(|s3.code|)), f0)
  {
    FrameRegs(s, s1, s3, own);
    FrameTrans(s3, s3, s3, [], [], []);
    EmitReloc(s3, s3, i, e, f0);
    hide Emit, Frame, Inv, ExpInv, IsValueInstr;
    SteppedTrans(s, s3, own, [], own, Emit(s3, i), e.(k := VReloc(|s3.code|)), f0);
  }

  lemma CodeCompInv(s: FS, rel: Relation, e1: Exp, e2: Exp, f0: int, f1: int)
    requires Inv(s) && Waiting(s, e1, f0, f1) && ExpInv(s, e2, f1) && !e1.k.VKNum?
    ensures var (s', e') := CodeComp(s, rel, e1, e2); Stepped(s, Own(e2), s', e', f0)
  {
    hide Exp2RK, Stepped, Frame, CondJump;
    var (s1, e1', o1) := Exp2RK(s, e1);
    FirstOperandInv(s, e1, f0, f1);
    var (s2, e2', o2) := Exp2RK(s, e2);
    Exp2RKInv(s, e2, f1);
    WaitingGrows(s, s2, Own(e2), e1, f0, f1);
    CompFree(s2, e1, e2', f0, f1);
    CompSteps(s, s2, FreeExp(FreeExp(s2, e2'), e1), e1, CompInstr(rel, o1, o2), Own(e2), f0);
  }

  lemma CompFree(s: FS, e1: Exp, e2: Exp, f0: int, f1: int)
    requires Inv(s) && Waiting(s, e1, f0, f1) && ExpInv(s, e2, f1)
    ensures FreesTop(s, e2) && FreesTop(FreeExp(s, e2), e1)
    ensures var s3 := FreeExp(FreeExp(s, e2), e1); s3 == s.(freereg := f0) && Inv(s3)
  {
  }

  lemma CompSteps(s: FS, s2: FS, s3: FS, e: Exp, i: Instr, own: seq<int>, f0: int)
    requires Inv(s3) && Frame(s, s2, own) && s3 == s2.(freereg := f0) && s3.nactvar <= f0
    requires !HasJumps(e) && i.OpComp?
    ensures var (s', l) := CondJump(s3, i); Stepped(s, own, s', e.(k := VJmp(l[0])), f0)
  {
    hide Inv, Frame, ExpInv, KindInv, Usable, PatchListAux;
    FrameRegs(s, s2, s3, own);
    CondJumpInv(s3, i);
    var s' := CondJump(s3, i).0;
    CompExp(s3, s', e, f0);
    hide CondJump;
    FrameTrans(s, s3, s', own, [], own);
    FreshJump(s, s2, e, own);
  }

  lemma CompExp(s: FS, s': FS, e: Exp, f0: int)
    requires Inv(s) && Inv(s') && !HasJumps(e) && |s'.code| == |s.code| + 2 && s'.lasttarget == s.lasttarget
    requires s'.freereg == f0 && s'.nactvar <= f0 && s'.jpc == []
    requires Pending(s'.code, |s.code| + 1) && s'.code[|s.code|].OpComp?
    ensures ExpInv(s', e.(k := VJmp(|s.code| + 1)), f0)
  {
  }

  lemma FreshJump(s: FS, s2: FS, e: Exp, own: seq<int>)
    requires Frame(s, s2, own) && !HasJumps(e)
    ensures Fresh(s, own, Own(e.(k := VJmp(|s2.code| + 1))))
  {
  }

  lemma CodeConcatInv(s0: FS, e1: Exp, e20: Exp, f0: int)
    requires Inv(s0) && e1 == Exp(VNonreloc(f0), [], []) && s0.nactvar <= f0 && ExpInv(s0, e20, f0 + 1)
    ensures var (s', e') := CodeConcat(s0, e1, e20); Stepped(s0, Own(e20), s', e', f0)
  {
    hide Exp2Val, Exp2NextReg, Stepped, Frame, Inv, ListsInv, Emit, FreeBoth, FreeExp;
    var (s, e2) := Exp2Val(s0, e20);
    Exp2ValInv(s0, e20, f0 + 1);
    if e2.k.VReloc? && s.code[e2.k.pc].OpConcat? {
      JoinConcat(s0, s, e1, e2, f0, Own(e20));
    } else {
      var (s1, e2') := Exp2NextReg(s, e2);
      Exp2NextRegInv(s, e2, f0 + 1);
      FrameTrans(s0, s, s1, Own(e20), Own(e2), Own(e20));
      NewConcat(s0, s1, e1, e2', f0, Own(e20));
    }
  }

  lemma JoinConcat(s0: FS, s: FS, e1: Exp, e2: Exp, f0: int, own: seq<int>)
    requires Inv(s) && Frame(s0, s, own) && ExpInv(s, e2, f0 + 1) && e2.k.VReloc? && s.code[e2.k.pc].OpConcat?
    requires e1 == Exp(VNonreloc(f0), [], []) && s0.nactvar <= f0
    ensures var s1 := FreeExp(s, e1); var prev := s1.code[e2.k.pc];
            Stepped(s0, own, s1.(code := s1.code[e2.k.pc := OpConcat(prev.a, f0, prev.c)]), e1.(k := e2.k), f0)
  {
    hide Inv, Frame, ExpInv;
    JoinRegs(s0, s, e1, e2, f0, own);
    var i := OpConcat(s.code[e2.k.pc].a, f0, s.code[e2.k.pc].c);
    var s1 := s.(freereg := f0);
    FrameRegs(s0, s, s1, own);
    ReplaceLast(s1, i);
    FrameTrans(s0, s1, s1.(code := s1.code[|s.code| - 1 := i]), own, [], own);
    JoinedReloc(s, e1, e2, f0, i);
  }

  lemma JoinRegs(s0: FS, s: FS, e1: Exp, e2: Exp, f0: int, own: seq<int>)
    requires Inv(s) && Frame(s0, s, own) && ExpInv(s, e2, f0 + 1) && e2.k.VReloc? && s.code[e2.k.pc].OpConcat?
    requires e1 == Exp(VNonreloc(f0), [], []) && s0.nactvar <= f0
    ensures s.nactvar <= f0 && FreeExp(s, e1) == s.(freereg := f0) && Inv(s.(freereg := f0))
    ensures e2.k.pc == |s.code| - 1 >= 0
  {
  }

  lemma JoinedReloc(s: FS, e1: Exp, e2: Exp, f0: int, i: Instr)
    requires ExpInv(s, e2, f0 + 1) && e2.k.VReloc? && s.code[e2.k.pc].OpConcat? && s.nactvar <= f0
    requires e1 == Exp(VNonreloc(f0), [], []) && i == OpConcat(s.code[e2.k.pc].a, f0, s.code[e2.k.pc].c)
    ensures var s' := s.(freereg := f0, code := s.code[e2.k.pc := i]); ExpInv(s', e1.(k := e2.k), f0)
  {
  }

  lemma NewConcat(s0: FS, s1: FS, e1: Exp, e2: Exp, f0: int, own: seq<int>)
    requires Inv(s1) && Frame(s0, s1, own) && ExpInv(s1, e2, f0 + 1) && e2 == Exp(VNonreloc(f0 + 1), [], [])
    requires e1 == Exp(VNonreloc(f0), [], []) && s0.nactvar <= f0
    ensures var s2 := FreeBoth(s1, e1, e2, R(f0), R(f0 + 1));
            Stepped(s0, own, Emit(s2, OpConcat(0, f0, f0 + 1)), e1.(k := VReloc(|s2.code|)), f0)
  {
    FreeBothRegs(s1, e1, e2, R(f0), R(f0 + 1), f0);
    UnarySteps(s0, s1, s1.(freereg := f0), e1, OpConcat(0, f0, f0 + 1), own, f0);
  }

  lemma PrefixInv(ops: Ops, s: FS, op: UnOpr, e: Exp, f0: int)
    requires Inv(s) && ExpInv(s, e, f0)
    ensures var (s', e') := Prefix(ops, s, op, e); Stepped(s, Own(e), s', e', f0)
  {
    if op.NotOpr? {
      CodeNotInv(s, e, f0);
    } else if op.LenOpr? || e.k.VK? {
      var (s1, e1) := Exp2AnyReg(s, e);
      Exp2AnyRegInv(s, e, f0);
      CodeUnaryInv(ops, s1, op, e1, f0);
      var (s2, e2) := CodeUnary(ops, s1, op, e1);
      hide Exp2AnyReg, CodeUnary, Stepped, Frame, Inv, ExpInv;
      SteppedTrans(s, s1, Own(e), Own(e1), Own(e), s2, e2, f0);
    } else {
      CodeUnaryInv(ops, s, op, e, f0);
    }
  }

  // After the left operand of an arithmetic, concatenation or comparison operator.
  lemma InfixInv(s: FS, op: BinOpr, e: Exp, f0: int)
    requires Inv(s) && ExpInv(s, e, f0) && !op.AndOpr? && !op.OrOpr?
    ensures var (s', e') := Infix(s, op, e);
            Inv(s') && Frame(s, s', Own(e)) && Waiting(s', e', f0, s'.freereg) &&
            (op.ConcatOpr? ==> e' == Exp(VNonreloc(f0), [], [])) && (op.CompOpr? ==> !e'.k.VKNum?)
  {
    if op.ConcatOpr? {
      Exp2NextRegInv(s, e, f0);
    } else {
      Exp2RKInv(s, e, f0);
      Exp2RKSmall(s, e);
    }
  }

  lemma Exp2RKSmall(s: FS, e: Exp)
    requires Inv(s)
    ensures var (s', e', o) := Exp2RK(s, e); o.K? ==> o.idx <= MAXINDEXRK
  {
    hide Exp2Val, Exp2AnyReg;
  }

  // The right operand of `and' or `or' joined with the jumps already out.
  lemma JoinInv(s1: FS, own: seq<int>, s2: FS, list: seq<int>, s3: FS, e2: Exp, e: Exp, f0: int)
    requires Inv(s2) && Frame(s1, s2, own) && PendingList(s2.code, list) && Disjoint(list, s2.jpc)
    requires Fresh(s1, own, list)
    requires Stepped(s2, [], s3, e2, f0)
    requires e == e2.(f := e2.f + list) || e == e2.(t := e2.t + list)
    ensures Stepped(s1, own, s3, e, f0)
  {
    ListKept(s2, s3, [], list);
    forall j | j in list ensures j !in Own(e2) {
      assert Pending(s2.code, j);
    }
    DistinctConcat(e2.f, list);
    DistinctConcat(e2.t, list);
    FrameTrans(s1, s2, s3, own, [], own);
    assert Fresh(s1, own, Own(e2));
    hide Frame, PendingList;
    assert ListsInv(s3, e);
  }

  lemma BinaryInv(ops: Ops, s: FS, op: BinOpr, y: Expr, z: Expr)
    requires Inv(s) && LocalsBelow(EBinary(op, y, z), s.nactvar)
    requires var (s1, e1) := Gen(ops, s, y); Stepped(s, [], s1, e1, s.freereg)
    ensures var (s', e) := Gen(ops, s, EBinary(op, y, z)); Stepped(s, [], s', e, s.freereg)
    decreases z, 1
  {
    hide Infix, Posfix, TestsPaired;
    var f0 := s.freereg;
    var (s1, e1) := Gen(ops, s, y);
    var (s2, e1') := Infix(s1, op, e1);
    LeftInv(s1, op, e1, f0);
    GenInv(ops, s2, z);
    var (s3, e2) := Gen(ops, s2, z);
    var (s4, e) := Posfix(ops, s3, op, e1', e2);
    hide Stepped, Inv;
    RightInv(ops, s1, op, e1, s2, e1', s3, e2, f0);
    SteppedTrans(s, s1, [], Own(e1), [], s4, e, f0);
  }

  lemma {:induction false} GenInv(ops: Ops, s: FS, x: Expr)
    requires Inv(s) && LocalsBelow(x, s.nactvar)
    ensures var (s', e) := Gen(ops, s, x); Stepped(s, [], s', e, s.freereg)
    decreases x, 0
  {
    hide Infix, Prefix, Posfix, DischargeVars, TestsPaired, AddK;
    var f0 := s.freereg;
    match x {
      case EParen(y) =>
        GenInv(ops, s, y);
        var (s1, e) := Gen(ops, s, y);
        DischargeVarsInv(s1, e, f0);
        FrameTrans(s, s1, DischargeVars(s1, e).0, [], [], []);
      case EUnary(op, y) =>
        GenInv(ops, s, y);
        var (s1, e) := Gen(ops, s, y);
        PrefixInv(ops, s1, op, e, f0);
        var (s2, e2) := Prefix(ops, s1, op, e);
        SteppedTrans(s, s1, [], Own(e), [], s2, e2, f0);
      case EBinary(op, y, z) =>
        GenInv(ops, s, y);
        BinaryInv(ops, s, op, y, z);
      case EStr(str) => AddKInv(s, Str(str));
      case _ =>
    }
  }

  lemma LeftInv(s: FS, op: BinOpr, e: Exp, f0: int)
    requires Inv(s) && ExpInv(s, e, f0)
    ensures var (s', _) := Infix(s, op, e); Inv(s') && s'.nactvar == s.nactvar
  {
    if op.AndOpr? {
      GoIfTrueInv(s, e, f0);
    } else if op.OrOpr? {
      GoIfFalseInv(s, e, f0);
    } else {
      InfixInv(s, op, e, f0);
    }
  }

  lemma RightInv(ops: Ops, s1: FS, op: BinOpr, e1: Exp, s2: FS, e1': Exp, s3: FS, e2: Exp, f0: int)
    requires Inv(s1) && ExpInv(s1, e1, f0) && (s2, e1') == Infix(s1, op, e1)
    requires Stepped(s2, [], s3, e2, s2.freereg)
    ensures var (s4, e) := Posfix(ops, s3, op, e1', e2); Stepped(s1, Own(e1), s4, e, f0) && Grows(s3, s4)
  {
    if op.AndOpr? {
      GoIfTrueInv(s1, e1, f0);
      hide Infix;
      LogicInv(s1, e1, s2, e1'.f, s3, e2, f0);
    } else if op.OrOpr? {
      GoIfFalseInv(s1, e1, f0);
      hide Infix;
      LogicInv(s1, e1, s2, e1'.t, s3, e2, f0);
    } else {
      InfixInv(s1, op, e1, f0);
      hide Infix;
      WaitingKept(s2, s3, e1', f0);
      PosfixInv(ops, s3, op, e1', e2, f0, s2.freereg);
      var (s4, e) := Posfix(ops, s3, op, e1', e2);
      hide Posfix;
      FrameTrans(s1, s2, s3, Own(e1), [], Own(e1));
      SteppedTrans(s1, s3, Own(e1), Own(e2), Own(e1), s4, e, f0);
    }
  }

  lemma LogicInv(s1: FS, e1: Exp, s2: FS, list: seq<int>, s3: FS, e2: Exp, f0: int)
    requires GoneInv(s1, e1, s2, list, f0) && Stepped(s2, [], s3, e2, f0)
    ensures var (s4, e) := DischargeVars(s3, e2);
            Grows(s3, s4) &&
            Stepped(s1, Own(e1), s4, e.(f := e.f + list), f0) && Stepped(s1, Own(e1), s4, e.(t := e.t + list), f0)
  {
    DischargeVarsInv(s3, e2, f0);
    var (s4, e) := DischargeVars(s3, e2);
    hide DischargeVars;
    FrameTrans(s2, s3, s4, [], [], []);
    JoinInv(s1, Own(e1), s2, list, s4, e, e.(f := e.f + list), f0);
    JoinInv(s1, Own(e1), s2, list, s4, e, e.(t := e.t + list), f0);
  }

  lemma WaitingKept(s: FS, s': FS, e: Exp, f0: int)
    requires Waiting(s, e, f0, s.freereg) && Frame(s, s', [])
    ensures Waiting(s', e, f0, s.freereg)
  {
  }

  lemma PosfixInv(ops: Ops, s: FS, op: BinOpr, e1: Exp, e2: Exp, f0: int, f1: int)
    requires Inv(s) && Waiting(s, e1, f0, f1) && ExpInv(s, e2, f1) && !op.AndOpr? && !op.OrOpr?
    requires (op.ConcatOpr? ==> e1 == Exp(VNonreloc(f0), [], [])) && (op.CompOpr? ==> !e1.k.VKNum?)
    ensures var (s', e) := Posfix(ops, s, op, e1, e2); Stepped(s, Own(e2), s', e, f0)
  {
    match op {
      case ArithOpr(aop) => CodeArithInv(ops, s, aop, e1, e2, f0, f1);
      case ConcatOpr => CodeConcatInv(s, e1, e2, f0);
      case CompOpr(rel) => CodeCompInv(s, rel, e1, e2, f0, f1);
    }
  }
}
