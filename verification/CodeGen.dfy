// The expression code generator as functions on values, with patch lists as
// plain sequences of jump addresses.  FuncState.dfy holds the generator proper,
// which threads those lists through the jump offsets of the code it emits.

module CodeGen {
  import opened LuaValue
  import opened LuaVM
  import opened Options

  const MAXSTACK: int := 250
  const MAXINDEXRK: int := 255

  datatype Kind =
    | VNil | VTrue | VFalse
    | VK(idx: int)
    | VKNum(nval: real)
    | VLocal(reg: int)
    | VUpval(uv: int)
    | VJmp(pc: int)
    | VReloc(pc: int)
    | VNonreloc(reg: int)

  // An expression descriptor: its kind, and the jumps out of it that are taken
  // when it is true and when it is false.
  datatype Exp = Exp(k: Kind, t: seq<int>, f: seq<int>)

  // `overflow' records the error "function or expression too complex".
  datatype FS = FS(
    code: seq<Instr>,
    k: seq<Value>,
    lasttarget: int,
    jpc: seq<int>,
    freereg: int,
    nactvar: int,
    maxstack: int,
    overflow: bool)

  predicate HasJumps(e: Exp) {
    e.t != [] || e.f != []
  }

  predicate IsNumeral(e: Exp) {
    e.k.VKNum? && !HasJumps(e)
  }

  // Address of the instruction that decides whether jump j is taken.
  function Control(code: seq<Instr>, j: int): (c: int)
    requires 0 <= j < |code|
    ensures c == j || (c == j - 1 && c >= 0)
  {
    if j >= 1 && IsTest(code[j - 1]) then j - 1 else j
  }

  predicate ControlIsTestSet(code: seq<Instr>, j: int) {
    0 <= j < |code| && code[Control(code, j)].OpTestSet?
  }

  function PatchTest(i: Instr, reg: int): Instr
    requires i.OpTestSet?
  {
    if reg != NO_REG && reg != i.b then OpTestSet(reg, i.b, i.cond) else OpTest(i.b, i.cond)
  }

  function PatchTestReg(code: seq<Instr>, j: int, reg: int): (code': seq<Instr>)
    ensures |code'| == |code|
  {
    if ControlIsTestSet(code, j)
    then var c := Control(code, j); code[c := PatchTest(code[c], reg)]
    else code
  }

  function FixJump(code: seq<Instr>, j: int, dest: int): (code': seq<Instr>)
    ensures |code'| == |code|
  {
    if 0 <= j < |code| then code[j := OpJmp(dest - (j + 1))] else code
  }

  function PatchListAux(code: seq<Instr>, list: seq<int>, vtarget: int, reg: int, dtarget: int): (code': seq<Instr>)
    ensures |code'| == |code|
    decreases list
  {
    if list == [] then code
    else
      var j := list[0];
      var dest := if ControlIsTestSet(code, j) then vtarget else dtarget;
      PatchListAux(FixJump(PatchTestReg(code, j, reg), j, dest), list[1..], vtarget, reg, dtarget)
  }

  function RemoveValues(code: seq<Instr>, list: seq<int>): (code': seq<Instr>)
    ensures |code'| == |code|
    decreases list
  {
    if list == [] then code
    else RemoveValues(PatchTestReg(code, list[0], NO_REG), list[1..])
  }

  predicate NeedValue(code: seq<Instr>, list: seq<int>) {
    exists j :: j in list && !ControlIsTestSet(code, j)
  }

  // luaK_code: discharge the jumps to here, then emit.
  function Emit(s: FS, i: Instr): FS {
    var n := |s.code|;
    s.(code := PatchListAux(s.code, s.jpc, n, NO_REG, n) + [i], jpc := [])
  }

  function GetLabel(s: FS): FS {
    s.(lasttarget := |s.code|)
  }

  function PatchToHere(s: FS, list: seq<int>): FS {
    s.(lasttarget := |s.code|, jpc := s.jpc + list)
  }

  // luaK_jump: the jumps to here are put on hold, behind the new one.
  function Jump(s: FS): (FS, seq<int>) {
    (s.(code := s.code + [OpJmp(NO_JUMP)], jpc := []), [|s.code|] + s.jpc)
  }

  function CondJump(s: FS, i: Instr): (FS, seq<int>) {
    Jump(Emit(s, i))
  }

  function EmitNil(s: FS, from: int, n: int): FS {
    var pc := |s.code|;
    if pc > s.lasttarget && pc == 0 && from >= s.nactvar then s
    else if pc > s.lasttarget && pc > 0 && s.code[pc - 1].OpLoadNil?
            && s.code[pc - 1].a <= from <= s.code[pc - 1].b + 1 then
      var prev := s.code[pc - 1];
      if from + n - 1 > prev.b then s.(code := s.code[pc - 1 := OpLoadNil(prev.a, from + n - 1)]) else s
    else Emit(s, OpLoadNil(from, from + n - 1))
  }

  function ReserveRegs(s: FS, n: int): FS {
    var newstack := s.freereg + n;
    s.(freereg := newstack,
       maxstack := if s.maxstack < newstack < MAXSTACK then newstack else s.maxstack,
       overflow := s.overflow || (newstack > s.maxstack && newstack >= MAXSTACK))
  }

  function FreeReg(s: FS, reg: int): FS {
    if reg >= s.nactvar then s.(freereg := s.freereg - 1) else s
  }

  function FreeExp(s: FS, e: Exp): FS {
    if e.k.VNonreloc? then FreeReg(s, e.k.reg) else s
  }

  function IndexIn(k: seq<Value>, v: Value): (i: nat)
    ensures i <= |k|
    ensures i < |k| ==> k[i] == v
  {
    if k == [] || k[0] == v then 0 else 1 + IndexIn(k[1..], v)
  }

  function AddK(s: FS, v: Value): (FS, int) {
    var i := IndexIn(s.k, v);
    (if i < |s.k| then s else s.(k := s.k + [v]), i)
  }

  function DischargeVars(s: FS, e: Exp): (FS, Exp) {
    match e.k
    case VLocal(r) => (s, e.(k := VNonreloc(r)))
    case VUpval(u) => (Emit(s, OpGetUpval(0, u)), e.(k := VReloc(|s.code|)))
    case _ => (s, e)
  }

  function CodeLabel(s: FS, a: int, b: bool, skip: bool): FS {
    Emit(GetLabel(s), OpLoadBool(a, b, skip))
  }

  function SetReloc(code: seq<Instr>, pc: int, reg: int): (code': seq<Instr>)
    ensures |code'| == |code|
  {
    if 0 <= pc < |code| && IsValueInstr(code[pc]) then code[pc := SetA(code[pc], reg)] else code
  }

  // discharge2reg, once variables are discharged.
  function Load(s: FS, k: Kind, reg: int): FS {
    match k
    case VNil => EmitNil(s, reg, 1)
    case VFalse => Emit(s, OpLoadBool(reg, false, false))
    case VTrue => Emit(s, OpLoadBool(reg, true, false))
    case VK(i) => Emit(s, OpLoadK(reg, i))
    case VKNum(n) => var (s1, i) := AddK(s, Num(n)); Emit(s1, OpLoadK(reg, i))
    case VReloc(pc) => s.(code := SetReloc(s.code, pc, reg))
    case VNonreloc(r) => if reg != r then Emit(s, OpMove(reg, r)) else s
    case _ => s
  }

  function Discharge2Reg(s0: FS, e0: Exp, reg: int): (FS, Exp) {
    var (s, e) := DischargeVars(s0, e0);
    if e.k.VJmp? then (s, e) else (Load(s, e.k, reg), e.(k := VNonreloc(reg)))
  }

  function Discharge2AnyReg(s: FS, e: Exp): (FS, Exp) {
    if e.k.VNonreloc? then (s, e)
    else var s1 := ReserveRegs(s, 1); Discharge2Reg(s1, e, s1.freereg - 1)
  }

  // The part of exp2reg that lays down `load false; load true', returning their addresses.
  function LoadLabels(s: FS, e: Exp, reg: int): (FS, int, int) {
    var (s1, fj) := if e.k.VJmp? then (s, []) else Jump(s);
    var s2 := CodeLabel(s1, reg, false, true);
    var s3 := CodeLabel(s2, reg, true, false);
    (PatchToHere(s3, fj), |s1.code|, |s2.code|)
  }

  function Exp2RegLists(s: FS, e: Exp, t: seq<int>, reg: int): FS {
    if t == [] && e.f == [] then s
    else
      var (s1, pf, pt) := if NeedValue(s.code, t) || NeedValue(s.code, e.f) then LoadLabels(s, e, reg)
                          else (s, NO_JUMP, NO_JUMP);
      var final := |s1.code|;
      var s2 := GetLabel(s1);
      s2.(code := PatchListAux(PatchListAux(s2.code, e.f, final, reg, pf), t, final, reg, pt))
  }

  function Exp2Reg(s0: FS, e0: Exp, reg: int): (FS, Exp) {
    var (s, e) := Discharge2Reg(s0, e0, reg);
    var t := if e.k.VJmp? then e.t + [e.k.pc] else e.t;
    (Exp2RegLists(s, e, t, reg), Exp(VNonreloc(reg), [], []))
  }

  function Exp2NextReg(s0: FS, e0: Exp): (FS, Exp) {
    var (s, e) := DischargeVars(s0, e0);
    var s1 := ReserveRegs(FreeExp(s, e), 1);
    Exp2Reg(s1, e, s1.freereg - 1)
  }

  function Exp2AnyReg(s0: FS, e0: Exp): (FS, Exp) {
    var (s, e) := DischargeVars(s0, e0);
    if e.k.VNonreloc? && !HasJumps(e) then (s, e)
    else if e.k.VNonreloc? && e.k.reg >= s.nactvar then Exp2Reg(s, e, e.k.reg)
    else Exp2NextReg(s, e)
  }

  function Exp2Val(s: FS, e: Exp): (FS, Exp) {
    if HasJumps(e) then Exp2AnyReg(s, e) else DischargeVars(s, e)
  }

  predicate IsConst(k: Kind) {
    k.VKNum? || k.VTrue? || k.VFalse? || k.VNil?
  }

  function ConstValue(k: Kind): Value
    requires IsConst(k)
  {
    match k
    case VKNum(n) => Num(n)
    case VTrue => Bool(true)
    case VFalse => Bool(false)
    case _ => Nil
  }

  function RegOf(e: Exp): int {
    if e.k.VNonreloc? then e.k.reg else 0
  }

  function Exp2RK(s0: FS, e0: Exp): (FS, Exp, RK) {
    var (s, e) := Exp2Val(s0, e0);
    if IsConst(e.k) && |s.k| <= MAXINDEXRK then
      var (s1, i) := AddK(s, ConstValue(e.k)); (s1, e.(k := VK(i)), K(i))
    else if e.k.VK? && e.k.idx <= MAXINDEXRK then (s, e, K(e.k.idx))
    else var (s1, e1) := Exp2AnyReg(s, e); (s1, e1, R(RegOf(e1)))
  }

  function InvertTest(i: Instr): Instr {
    if i.OpComp? then OpComp(i.cop, !i.cond, i.rb, i.rc) else i
  }

  function InvertJump(s: FS, pc: int): FS {
    if 0 <= pc < |s.code| then
      var c := Control(s.code, pc);
      s.(code := s.code[c := InvertTest(s.code[c])])
    else s
  }

  function JumpOnCond(s: FS, e: Exp, cond: bool): (FS, seq<int>) {
    if e.k.VReloc? && 0 <= e.k.pc < |s.code| && s.code[e.k.pc].OpNot? then
      var ie := s.code[e.k.pc];
      CondJump(s.(code := s.code[..|s.code| - 1]), OpTest(ie.b, !cond))
    else
      var (s1, e1) := Discharge2AnyReg(s, e);
      CondJump(FreeExp(s1, e1), OpTestSet(NO_REG, RegOf(e1), cond))
  }

  // The jump that leaves when the operand is false, if it ever is.  A constant false always
  // leaves; the jumps waiting to land on it then join its list, and one with a value of its
  // own delivers that value instead.
  function JumpIfFalse(s: FS, e: Exp): (FS, seq<int>) {
    match e.k
    case VK(_) => (s, [])
    case VKNum(_) => (s, [])
    case VTrue => (s, [])
    case VFalse => Jump(s)
    case VJmp(pc) => (InvertJump(s, pc), [pc])
    case _ => JumpOnCond(s, e, false)
  }

  function GoIfTrue(s0: FS, e0: Exp): (FS, Exp) {
    var (s, e) := DischargeVars(s0, e0);
    var (s1, l) := JumpIfFalse(s, e);
    (PatchToHere(s1, e.t), Exp(e.k, [], e.f + l))
  }

  function JumpIfTrue(s: FS, e: Exp): (FS, seq<int>) {
    match e.k
    case VNil => (s, [])
    case VFalse => (s, [])
    case VTrue => Jump(s)
    case VJmp(pc) => (s, [pc])
    case _ => JumpOnCond(s, e, true)
  }

  function GoIfFalse(s0: FS, e0: Exp): (FS, Exp) {
    var (s, e) := DischargeVars(s0, e0);
    var (s1, l) := JumpIfTrue(s, e);
    (PatchToHere(s1, e.f), Exp(e.k, e.t + l, []))
  }

  // Negates the operand itself, leaving its lists to CodeNot.
  function Negate(s: FS, e: Exp): (FS, Kind) {
    match e.k
    case VNil => (s, VTrue)
    case VFalse => (s, VTrue)
    case VK(_) => (s, VFalse)
    case VKNum(_) => (s, VFalse)
    case VTrue => (s, VFalse)
    case VJmp(pc) => (InvertJump(s, pc), e.k)
    case _ =>
      var (s1, e1) := Discharge2AnyReg(s, e);
      var s2 := FreeExp(s1, e1);
      (Emit(s2, OpNot(0, RegOf(e1))), VReloc(|s2.code|))
  }

  function CodeNot(s0: FS, e0: Exp): (FS, Exp) {
    var (s, e) := DischargeVars(s0, e0);
    var (s1, k1) := Negate(s, e);
    (s1.(code := RemoveValues(RemoveValues(s1.code, e.t), e.f)), Exp(k1, e.f, e.t))
  }

  function ConstFolding(ops: Ops, op: ArithOp, e1: Exp, e2: Exp): Option<real> {
    if !IsNumeral(e1) || !IsNumeral(e2) then None
    else if (op.DIV? || op.MOD?) && e2.k.nval == 0.0 then None
    else
      var r := ops.arith(op, e1.k.nval, e2.k.nval);
      if ops.isNaN(r) then None else Some(r)
  }

  // Operands are encoded with constants above all registers.
  predicate Above(o1: RK, o2: RK) {
    match (o1, o2)
    case (K(i), K(j)) => i > j
    case (R(i), R(j)) => i > j
    case (K(_), R(_)) => true
    case (R(_), K(_)) => false
  }

  function FreeBoth(s: FS, e1: Exp, e2: Exp, o1: RK, o2: RK): FS {
    if Above(o1, o2) then FreeExp(FreeExp(s, e1), e2) else FreeExp(FreeExp(s, e2), e1)
  }

  function CodeArith(ops: Ops, s: FS, op: ArithOp, e1: Exp, e2: Exp): (FS, Exp) {
    var folded := ConstFolding(ops, op, e1, e2);
    if folded.Some? then (s, e1.(k := VKNum(folded.value)))
    else
      var (s1, e2', o2) := Exp2RK(s, e2);
      var (s2, e1', o1) := Exp2RK(s1, e1);
      var s3 := FreeBoth(s2, e1', e2', o1, o2);
      (Emit(s3, OpArith(op, 0, o1, o2)), e1'.(k := VReloc(|s3.code|)))
  }

  // codearith for the unary operators.  The numeral 0 that stands in for the
  // second operand makes constfolding answer 0 for `!' on a numeral, and
  // nothing moves a constant operand of OP_UNM or OP_BNOT into a register.
  function CodeUnary(ops: Ops, s: FS, op: UnOpr, e: Exp): (FS, Exp)
    requires !op.NotOpr?
  {
    if op.MinusOpr? && IsNumeral(e) && !ops.isNaN(ops.unm(e.k.nval)) then
      (s, e.(k := VKNum(ops.unm(e.k.nval))))
    else if op.BNotOpr? && IsNumeral(e) then
      (s, e.(k := VKNum(0.0)))
    else
      var (s1, e1, o1) := Exp2RK(s, e);
      var s2 := FreeExp(s1, e1);
      var i := if op.MinusOpr? then OpUnm(0, o1)
               else if op.BNotOpr? then OpBNot(0, o1)
               else OpLen(0, RegOf(e1));
      (Emit(s2, i), e1.(k := VReloc(|s2.code|)))
  }

  function CompInstr(rel: Relation, o1: RK, o2: RK): Instr {
    match rel
    case EQUAL => OpComp(EQ, true, o1, o2)
    case NE => OpComp(EQ, false, o1, o2)
    case LESS => OpComp(LT, true, o1, o2)
    case LESSEQ => OpComp(LE, true, o1, o2)
    case GREATER => OpComp(LT, true, o2, o1)  // there is no opcode for it: swap
    case GREATEREQ => OpComp(LE, true, o2, o1)
  }

  function CodeComp(s: FS, rel: Relation, e1: Exp, e2: Exp): (FS, Exp) {
    var (s1, e1', o1) := Exp2RK(s, e1);
    var (s2, e2', o2) := Exp2RK(s1, e2);
    var s3 := FreeExp(FreeExp(s2, e2'), e1');
    var (s4, l) := CondJump(s3, CompInstr(rel, o1, o2));
    (s4, e1'.(k := VJmp(l[0])))
  }

  function Prefix(ops: Ops, s: FS, op: UnOpr, e: Exp): (FS, Exp) {
    if op.NotOpr? then CodeNot(s, e)
    else if op.LenOpr? || e.k.VK? then var (s1, e1) := Exp2AnyReg(s, e); CodeUnary(ops, s1, op, e1)
    else CodeUnary(ops, s, op, e)
  }

  function Infix(s: FS, op: BinOpr, e: Exp): (FS, Exp) {
    match op
    case AndOpr => GoIfTrue(s, e)
    case OrOpr => GoIfFalse(s, e)
    case ConcatOpr => Exp2NextReg(s, e)
    case ArithOpr(aop) =>
      if !IsBitwise(aop) && IsNumeral(e) then (s, e) else var (s1, e1, _) := Exp2RK(s, e); (s1, e1)
    case CompOpr(_) => var (s1, e1, _) := Exp2RK(s, e); (s1, e1)
  }

  function CodeConcat(s0: FS, e1: Exp, e20: Exp): (FS, Exp) {
    var (s, e2) := Exp2Val(s0, e20);
    if e2.k.VReloc? && 0 <= e2.k.pc < |s.code| && s.code[e2.k.pc].OpConcat? then
      var s1 := FreeExp(s, e1);
      (s1.(code := s1.code[e2.k.pc := OpConcat(s1.code[e2.k.pc].a, RegOf(e1), s1.code[e2.k.pc].c)]),
       e1.(k := e2.k))
    else
      var (s1, e2') := Exp2NextReg(s, e2);
      var s2 := FreeBoth(s1, e1, e2', R(RegOf(e1)), R(RegOf(e2')));
      (Emit(s2, OpConcat(0, RegOf(e1), RegOf(e2'))), e1.(k := VReloc(|s2.code|)))
  }

  function Posfix(ops: Ops, s: FS, op: BinOpr, e1: Exp, e2: Exp): (FS, Exp) {
    match op
    case AndOpr => var (s1, e) := DischargeVars(s, e2); (s1, e.(f := e.f + e1.f))
    case OrOpr => var (s1, e) := DischargeVars(s, e2); (s1, e.(t := e.t + e1.t))
    case ConcatOpr => CodeConcat(s, e1, e2)
    case ArithOpr(aop) => CodeArith(ops, s, aop, e1, e2)
    case CompOpr(rel) => CodeComp(s, rel, e1, e2)
  }

  // simpleexp, for the operands modelled.
  function Leaf(s: FS, x: Expr): (FS, Exp)
    requires !x.EParen? && !x.EUnary? && !x.EBinary?
  {
    match x
    case ENil => (s, Exp(VNil, [], []))
    case ETrue => (s, Exp(VTrue, [], []))
    case EFalse => (s, Exp(VFalse, [], []))
    case ENum(n) => (s, Exp(VKNum(n), [], []))
    case EStr(str) => var (s1, i) := AddK(s, Str(str)); (s1, Exp(VK(i), [], []))
    case ELocal(i) => (s, Exp(VLocal(i), [], []))
    case EUpval(i) => (s, Exp(VUpval(i), [], []))
  }

  // What subexpr does to the function state while it reads expression x.
  function Gen(ops: Ops, s: FS, x: Expr): (FS, Exp)
    decreases x
  {
    match x
    case EParen(y) => var (s1, e) := Gen(ops, s, y); DischargeVars(s1, e)
    case EUnary(op, y) => var (s1, e) := Gen(ops, s, y); Prefix(ops, s1, op, e)
    case EBinary(op, y, z) =>
      var (s1, e1) := Gen(ops, s, y);
      var (s2, e1') := Infix(s1, op, e1);
      var (s3, e2) := Gen(ops, s2, z);
      Posfix(ops, s3, op, e1', e2)
    case _ => Leaf(s, x)
  }
}
