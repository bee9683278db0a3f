// Which expressions are compiled to what they mean: a condition on the tree, and at the
// two places where the code goes wrong, exactly when it does.

module CodeRight {
  import opened LuaValue
  import opened LuaVM
  import opened CodeGen
  import opened CodeGenInv
  import opened CodeMeaning
  import opened CodeGenSound
  import opened JumpLists
  import opened FuncStates
  import opened ExprParsers
  import opened CodeGenFits
  import opened ReturnStat
  import opened Options

  // ----- descriptors, as far as the tree determines them -----

  datatype Class = CNil | CTrue | CFalse | CNum(n: real) | CStr | CLocal | CUpval | CComp | CNot | CValue

  // Kind of the descriptor, and whether it has jumps out as true and as false.
  datatype Shape = Shape(k: Class, t: bool, f: bool)

  predicate Never(k: Class, cond: bool) {
    if cond then k.CNil? || k.CFalse? else k.CStr? || k.CNum? || k.CTrue?
  }

  predicate Always(k: Class, cond: bool) {
    if cond then k.CTrue? else k.CFalse?
  }

  predicate Flat(a: Shape) {
    !a.t && !a.f
  }

  function FoldOf(ops: Ops, op: BinOpr, a: Shape, b: Shape): Option<real> {
    if op.ArithOpr? && !IsBitwise(op.op) && a.k.CNum? && Flat(a) && b.k.CNum? && Flat(b)
    then ConstFolding(ops, op.op, Exp(VKNum(a.k.n), [], []), Exp(VKNum(b.k.n), [], []))
    else None
  }

  function NotClass(k: Class): Class {
    match k
    case CNil => CTrue
    case CFalse => CTrue
    case CTrue => CFalse
    case CNum(_) => CFalse
    case CStr => CFalse
    case CComp => CComp
    case _ => CNot
  }

  function UnaryShape(ops: Ops, op: UnOpr, a: Shape): Shape {
    match op
    case NotOpr => Shape(NotClass(a.k), a.f, a.t)
    case LenOpr => Shape(CValue, false, false)
    case MinusOpr =>
      if a.k.CNum? && Flat(a) && !ops.isNaN(ops.unm(a.k.n)) then Shape(CNum(ops.unm(a.k.n)), false, false)
      else Shape(CValue, false, false)
    case BNotOpr => if a.k.CNum? && Flat(a) then Shape(CNum(0.0), false, false) else Shape(CValue, false, false)
  }

  function LoadedClass(k: Class): Class {
    if k.CUpval? then CValue else k
  }

  function ShapeOf(ops: Ops, x: Expr): Shape {
    match x
    case ENil => Shape(CNil, false, false)
    case ETrue => Shape(CTrue, false, false)
    case EFalse => Shape(CFalse, false, false)
    case ENum(n) => Shape(CNum(n), false, false)
    case EStr(_) => Shape(CStr, false, false)
    case ELocal(_) => Shape(CLocal, false, false)
    case EUpval(_) => Shape(CUpval, false, false)
    case EParen(y) => var a := ShapeOf(ops, y); a.(k := LoadedClass(a.k))
    case EUnary(op, y) => UnaryShape(ops, op, ShapeOf(ops, y))
    case EBinary(op, y, z) =>
      var a, b := ShapeOf(ops, y), ShapeOf(ops, z);
      match op
      case AndOpr => Shape(LoadedClass(b.k), b.t, b.f || a.f || !Never(a.k, false))
      case OrOpr => Shape(LoadedClass(b.k), b.t || a.t || !Never(a.k, true), b.f)
      case ConcatOpr => Shape(CValue, false, false)
      case CompOpr(_) => Shape(CComp, false, false)
      case ArithOpr(_) =>
        var n := FoldOf(ops, op, a, b);
        if n.Some? then Shape(CNum(n.value), false, false) else Shape(CValue, false, false)
  }

  function ClassOf(s: FS, k: Kind): Class {
    match k
    case VNil => CNil
    case VTrue => CTrue
    case VFalse => CFalse
    case VK(_) => CStr
    case VKNum(n) => CNum(n)
    case VLocal(_) => CLocal
    case VNonreloc(_) => CLocal
    case VUpval(_) => CUpval
    case VJmp(_) => CComp
    case VReloc(pc) => if 0 <= pc < |s.code| && s.code[pc].OpNot? then CNot else CValue
  }

  predicate ShapeIs(s: FS, e: Exp, a: Shape) {
    ClassOf(s, e.k) == a.k && (e.t != []) == a.t && (e.f != []) == a.f
  }

  lemma VarsShape(s: FS, e: Exp, a: Shape)
    requires Inv(s) && ShapeIs(s, e, a)
    ensures var (s', e') := DischargeVars(s, e); ShapeIs(s', e', a.(k := LoadedClass(a.k)))
  {
    if e.k.VUpval? { EmitInv(s, OpGetUpval(0, e.k.uv)); }
    hide Emit;
  }

  lemma NotShape(s: FS, e: Exp, f0: int, a: Shape)
    requires Inv(s) && ExpInv(s, e, f0) && ShapeIs(s, e, a)
    ensures var (s', e') := CodeNot(s, e); ShapeIs(s', e', Shape(NotClass(a.k), a.f, a.t))
  {
    hide DischargeVars, Negate, RemoveValues, Frame, Inv, Usable, FreeAfter, NotClass, Stepped;
    DischargeVarsInv(s, e, f0);
    VarsShape(s, e, a);
    NotLoaded(a.k);
    var (s1, e1) := DischargeVars(s, e);
    NegateInv(s1, e1, f0);
    NegatedClass(s1, e1, f0);
    var (s2, k2) := Negate(s1, e1);
    ListsPending(s1, e1, s2, e1.(k := k2), f0);
    RemoveTwice(s2.code, e1.t, e1.f);
    RemovedClass(s2, CodeNot(s, e).0, k2, e1.t + e1.f);
  }

  lemma NotLoaded(k: Class)
    ensures NotClass(LoadedClass(k)) == NotClass(k)
  {
  }

  lemma ListsPending(s: FS, e: Exp, s': FS, e': Exp, f0: int)
    requires Stepped(s, Own(e), s', e', f0)
    ensures forall j :: j in e'.t || j in e'.f ==> Pending(s'.code, j)
  {
  }

  lemma RemovedClass(s: FS, s': FS, k: Kind, own: seq<int>)
    requires Removed(s.code, s'.code, own) && (k.VReloc? ==> 0 <= k.pc < |s.code|)
    ensures ClassOf(s', k) == ClassOf(s, k)
  {
    if k.VReloc? { assert s'.code[k.pc] == RemovedAt(s.code, k.pc, own); }
  }

  lemma NegatedClass(s: FS, e: Exp, f0: int)
    requires Inv(s) && ExpInv(s, e, f0) && !e.k.VLocal? && !e.k.VUpval?
    ensures var (s', k') := Negate(s, e);
            ClassOf(s', k') == NotClass(ClassOf(s, e.k)) && (k'.VReloc? ==> 0 <= k'.pc < |s'.code|)
  {
    hide Grows, Inv;
    if e.k.VNonreloc? || e.k.VReloc? {
      Discharge2AnyRegInv(s, e, f0);
      var (s1, e1) := Discharge2AnyReg(s, e);
      EmitInv(FreeExp(s1, e1), OpNot(0, RegOf(e1)));
    }
    hide Discharge2AnyReg, Emit, InvertJump, Frame;
  }

  lemma UnaryShapeIs(ops: Ops, s: FS, op: UnOpr, e: Exp, f0: int, a: Shape)
    requires Inv(s) && ExpInv(s, e, f0) && ShapeIs(s, e, a)
    ensures var (s', e') := Prefix(ops, s, op, e); ShapeIs(s', e', UnaryShape(ops, op, a))
  {
    hide CodeNot, CodeUnary, Exp2AnyReg, Inv, ExpInv;
    if op.NotOpr? {
      NotShape(s, e, f0, a);
    } else if op.LenOpr? || e.k.VK? {
      Exp2AnyRegInv(s, e, f0);
      var (s1, e1) := Exp2AnyReg(s, e);
      OperationShape(ops, s1, op, e1, f0);
    } else {
      OperationShape(ops, s, op, e, f0);
    }
  }

  lemma OperationShape(ops: Ops, s: FS, op: UnOpr, e: Exp, f0: int)
    requires Inv(s) && ExpInv(s, e, f0) && !op.NotOpr? && (op.LenOpr? ==> e.k.VNonreloc? && !HasJumps(e))
    ensures var (s', e') := CodeUnary(ops, s, op, e);
            if UnaryFolds(ops, op, e) then s' == s &&
            e' == e.(k := VKNum(if op.BNotOpr? then 0.0 else ops.unm(e.k.nval)))
            else ShapeIs(s', e', Shape(CValue, false, false))
  {
    hide ExpInv, FreeExp, KindInv, TestsPaired, PatchListAux;
    if !UnaryFolds(ops, op, e) {
      Exp2RKInv(s, e, f0);
      var (s1, e1, o1) := Exp2RK(s, e);
      RKRegs(s, e, f0);
      EmitInv(FreeExp(s1, e1), if op.MinusOpr? then OpUnm(0, o1) else if op.BNotOpr? then OpBNot(0, o1)
              else OpLen(0, RegOf(e1)));
    }
    hide Exp2RK, Emit, Frame;
  }

  lemma RKRegs(s: FS, e: Exp, f0: int)
    requires Inv(s) && ExpInv(s, e, f0)
    ensures var (s1, e1, _) := Exp2RK(s, e); Inv(FreeExp(s1, e1))
  {
    Exp2RKInv(s, e, f0);
    hide Exp2RK, Frame;
  }

  lemma LogicShape(s: FS, e: Exp, cond: bool, f0: int, a: Shape)
    requires Inv(s) && ExpInv(s, e, f0) && ShapeIs(s, e, a)
    ensures if cond then (GoIfFalse(s, e).1.t != []) == (a.t || !Never(a.k, true))
            else (GoIfTrue(s, e).1.f != []) == (a.f || !Never(a.k, false))
  {
    DischargeVarsInv(s, e, f0);
    VarsShape(s, e, a);
    var (s1, e1) := DischargeVars(s, e);
    JumpListShape(s1, e1, f0);
    hide DischargeVars, JumpIfFalse, JumpIfTrue, Frame, Inv, ExpInv;
  }

  lemma JumpListShape(s: FS, e: Exp, f0: int)
    requires Inv(s) && ExpInv(s, e, f0) && !e.k.VLocal? && !e.k.VUpval?
    ensures (JumpIfFalse(s, e).1 != []) == !Never(ClassOf(s, e.k), false)
    ensures (JumpIfTrue(s, e).1 != []) == !Never(ClassOf(s, e.k), true)
  {
    if e.k.VReloc? || e.k.VNonreloc? || e.k.VNil? || e.k.VK? || e.k.VKNum? {
      JumpOnCondInv(s, e, true, f0);
      JumpOnCondInv(s, e, false, f0);
    }
    hide JumpOnCond, InvertJump, Frame, Inv;
  }

  lemma ValueShape(s: FS, i: Instr, k: Kind)
    requires Inv(s) && IsValueInstr(i) && !i.OpNot?
    ensures ClassOf(Emit(s, i), VReloc(|s.code|)) == CValue
  {
    EmitInv(s, i);
    hide Emit;
  }

  lemma {:induction false} GenShape(ops: Ops, s: FS, x: Expr)
    requires Inv(s) && LocalsBelow(x, s.nactvar)
    ensures var (s', e) := Gen(ops, s, x); ShapeIs(s', e, ShapeOf(ops, x))
    decreases x
  {
    hide Prefix, Infix, Posfix, DischargeVars, Inv, ExpInv, Stepped, Frame, Fresh, UnaryShape;
    var f0 := s.freereg;
    match x {
      case EParen(y) =>
        GenShape(ops, s, y);
        GenInv(ops, s, y);
        var (s1, e) := Gen(ops, s, y);
        SteppedParts(s, s1, e, f0);
        VarsShape(s1, e, ShapeOf(ops, y));
      case EUnary(op, y) =>
        GenShape(ops, s, y);
        GenInv(ops, s, y);
        var (s1, e) := Gen(ops, s, y);
        SteppedParts(s, s1, e, f0);
        UnaryShapeIs(ops, s1, op, e, f0, ShapeOf(ops, y));
      case EBinary(op, y, z) =>
        GenShape(ops, s, y);
        GenInv(ops, s, y);
        var (s1, e1) := Gen(ops, s, y);
        SteppedParts(s, s1, e1, f0);
        LeftInv(s1, op, e1, f0);
        var (s2, e1') := Infix(s1, op, e1);
        GenShape(ops, s2, z);
        GenInv(ops, s2, z);
        var (s3, e2) := Gen(ops, s2, z);
        SteppedParts(s2, s3, e2, s2.freereg);
        BinaryShape(ops, s1, op, e1, s2, e1', s3, e2, f0, ShapeOf(ops, y), ShapeOf(ops, z), y, z);
      case _ =>
    }
  }

  lemma BinaryShape(ops: Ops, s1: FS, op: BinOpr, e1: Exp, s2: FS, e1': Exp, s3: FS, e2: Exp, f0: int, a: Shape,
      b: Shape, y: Expr, z: Expr)
    requires Inv(s1) && ExpInv(s1, e1, f0) && (s2, e1') == Infix(s1, op, e1) && Stepped(s2, [], s3, e2, s2.freereg)
    requires ShapeIs(s1, e1, a) && ShapeIs(s3, e2, b) && a == ShapeOf(ops, y) && b == ShapeOf(ops, z)
    ensures var (s4, e) := Posfix(ops, s3, op, e1', e2); ShapeIs(s4, e, ShapeOf(ops, EBinary(op, y, z)))
  {
    hide GoIfTrue, GoIfFalse, DischargeVars, Inv, ExpInv, Stepped, Frame, CodeArith, CodeConcat, CodeComp, Exp2RK,
      Exp2NextReg;
    SteppedParts(s2, s3, e2, s2.freereg);
    match op {
      case AndOpr =>
        LogicShape(s1, e1, false, f0, a);
        VarsShape(s3, e2, b);
      case OrOpr =>
        LogicShape(s1, e1, true, f0, a);
        VarsShape(s3, e2, b);
      case _ =>
        OperatorShape(ops, s1, op, e1, s2, e1', s3, e2, f0, a, b);
    }
  }

  lemma OperatorShape(ops: Ops, s1: FS, op: BinOpr, e1: Exp, s2: FS, e1': Exp, s3: FS, e2: Exp, f0: int, a: Shape,
      b: Shape)
    requires Inv(s1) && ExpInv(s1, e1, f0) && (s2, e1') == Infix(s1, op, e1) && Stepped(s2, [], s3, e2, s2.freereg)
    requires ShapeIs(s1, e1, a) && ShapeIs(s3, e2, b) && !op.AndOpr? && !op.OrOpr?
    ensures var (s4, e) := Posfix(ops, s3, op, e1', e2);
            var n := FoldOf(ops, op, a, b);
            !HasJumps(e) && ClassOf(s4, e.k) == if op.CompOpr? then CComp else if n.Some? then CNum(n.value) else CValue
    ensures Folds(ops, op, e1', e2) == FoldOf(ops, op, a, b).Some? &&
            (Folds(ops, op, e1', e2) ==> ConstFolding(ops, op.op, e1', e2) == FoldOf(ops, op, a, b))
  {
    hide Infix, Inv, ExpInv, Stepped, Posfix, ConstFolding;
    OperandWaits(s1, op, e1, f0);
    if op.ArithOpr? { NumeralStays(s1, op, e1, f0); FoldShape(ops, s1, op, e1, e1', s3, e2, a, b); }
    PosfixKind(ops, s3, op, e1', e2);
    if Folds(ops, op, e1', e2) { FoldedKind(ops, s3, op, e1', e2); }
    LastInstr(ops, s1, op, e1, s2, e1', s3, e2, f0);
  }

  lemma OperandWaits(s: FS, op: BinOpr, e: Exp, f0: int)
    requires Inv(s) && ExpInv(s, e, f0) && !op.AndOpr? && !op.OrOpr?
    ensures !HasJumps(Infix(s, op, e).1)
  {
    hide Infix, Frame;
    InfixInv(s, op, e, f0);
  }

  lemma FoldShape(ops: Ops, s1: FS, op: BinOpr, e1: Exp, e1': Exp, s3: FS, e2: Exp, a: Shape, b: Shape)
    requires ShapeIs(s1, e1, a) && ShapeIs(s3, e2, b) && op.ArithOpr?
    requires IsNumeral(e1') <==> IsNumeral(e1) && !IsBitwise(op.op)
    requires IsNumeral(e1') ==> e1' == e1
    ensures ConstFolding(ops, op.op, e1', e2) == FoldOf(ops, op, a, b)
  {
  }

  lemma FoldedKind(ops: Ops, s: FS, op: BinOpr, e1: Exp, e2: Exp)
    requires Folds(ops, op, e1, e2)
    ensures Posfix(ops, s, op, e1, e2).1.k == VKNum(ConstFolding(ops, op.op, e1, e2).value)
  {
    hide ConstFolding, Exp2RK;
  }

  lemma NumeralStays(s: FS, op: BinOpr, e: Exp, f0: int)
    requires Inv(s) && ExpInv(s, e, f0) && op.ArithOpr?
    ensures IsNumeral(Infix(s, op, e).1) <==> IsNumeral(e) && !IsBitwise(op.op)
    ensures IsNumeral(Infix(s, op, e).1) ==> Infix(s, op, e).1 == e
  {
    Exp2RKInv(s, e, f0);
    hide Exp2RK;
  }

  // The last instruction is never a `not'.
  lemma LastInstr(ops: Ops, s1: FS, op: BinOpr, e1: Exp, s2: FS, e1': Exp, s3: FS, e2: Exp, f0: int)
    requires Inv(s1) && ExpInv(s1, e1, f0) && (s2, e1') == Infix(s1, op, e1) && Stepped(s2, [], s3, e2, s2.freereg)
    requires !op.AndOpr? && !op.OrOpr?
    ensures var (s4, e) := Posfix(ops, s3, op, e1', e2);
            (op.CompOpr? ==> e.k.VJmp?) && (e.k.VReloc? ==> ClassOf(s4, e.k) == CValue) && (e.k.VJmp? ==> op.CompOpr?)
  {
    InfixInv(s1, op, e1, f0);
    WaitingKept(s2, s3, e1', f0);
    hide Infix;
    match op {
      case ArithOpr(aop) => ArithLast(ops, s3, aop, e1', e2, f0, s2.freereg);
      case ConcatOpr => ConcatLast(s3, e1', e2, f0);
      case CompOpr(rel) => hide Exp2RK, CondJump;
    }
  }

  lemma ArithLast(ops: Ops, s: FS, op: ArithOp, e1: Exp, e2: Exp, f0: int, f1: int)
    requires Inv(s) && Waiting(s, e1, f0, f1) && ExpInv(s, e2, f1)
    ensures var (s', e) := CodeArith(ops, s, op, e1, e2); e.k.VReloc? ==> ClassOf(s', e.k) == CValue
    ensures !CodeArith(ops, s, op, e1, e2).1.k.VJmp?
  {
    hide Exp2RK, ConstFolding, Emit, FreeBoth, Inv, Frame;
    var (s1, e2', o2) := Exp2RK(s, e2);
    Exp2RKInv(s, e2, f1);
    var (s2, e1', o1) := Exp2RK(s1, e1);
    WaitingGrows(s, s1, Own(e2), e1, f0, f1);
    RegsInUse(s1, e2', f1);
    FirstOperandInv(s1, e1, f0, f1);
    TwoReady(s1, e1, e2', o2, s2, e1', o1, f0, f1);
    FreeBothRegs(s2, e1', e2', o1, o2, f0);
    ValueShape(s2.(freereg := f0), OpArith(op, 0, o1, o2), e1'.k);
  }

  lemma ConcatLast(s0: FS, e1: Exp, e20: Exp, f0: int)
    requires Inv(s0) && e1 == Exp(VNonreloc(f0), [], []) && s0.nactvar <= f0 && ExpInv(s0, e20, f0 + 1)
    ensures var (s', e) := CodeConcat(s0, e1, e20); e.k.VReloc? && ClassOf(s', e.k) == CValue
  {
    hide Exp2Val, Exp2NextReg, Emit, Inv, Keeps, Fresh;
    Exp2ValInv(s0, e20, f0 + 1);
    ConcatBranches(s0, e1, e20, f0);
    var (s, e2) := Exp2Val(s0, e20);
    Exp2NextRegInv(s, e2, f0 + 1);
    var s1 := Exp2NextReg(s, e2).0;
    LowerTop(s1, f0);
    if !(e2.k.VReloc? && s.code[e2.k.pc].OpConcat?) { ValueShape(s1.(freereg := f0), OpConcat(0, f0, f0 + 1), e2.k); }
  }

  lemma LowerTop(s: FS, f0: int)
    requires Inv(s)
    ensures s.nactvar <= f0 <= s.freereg ==> Inv(s.(freereg := f0))
  {
  }

  // ----- which values jumps may carry -----

  // What the jump that led somewhere may carry.
  datatype Carry = Nothing | Only(v: Value) | Anything

  predicate May(c: Option<Value>, k: Carry) {
    c.Some? ==> k.Anything? || k == Only(c.value)
  }

  function Either(k: Carry, l: Carry): Carry {
    if k == l || l.Nothing? then k else if k.Nothing? then l else Anything
  }

  function When(p: bool, k: Carry): Carry {
    if p then k else Nothing
  }

  // What may be carried to an exit as true, to an exit as false, and to the end, and
  // whether a value at the end is a boolean.
  datatype Bits = Bits(t: Carry, f: Carry, e: Carry, isBool: bool)

  function LeaveCarry(k: Class, cond: bool, b: Bits): Carry {
    if Never(k, cond) || k.CComp? || k.CNot? then Nothing
    else if Always(k, cond) then b.e
    else if k.CNum? then Only(Num(k.n))
    else if k.CNil? then Only(Nil)
    else if b.isBool then Only(Bool(cond))
    else Anything
  }

  function GoCarry(k: Class, cond: bool, b: Bits): Carry {
    Either(if cond then b.f else b.t, When(Never(k, cond), b.e))
  }

  function QuietCarry(a: Shape, b: Bits): Carry {
    When(Flat(a) && !a.k.CUpval?, b.e)
  }

  function LoadedBits(k: Class, b: Bits): Bits {
    b.(e := When(!k.CUpval?, b.e))
  }

  function UnaryBits(ops: Ops, op: UnOpr, a: Shape, b: Bits): Bits {
    var stays := if op.NotOpr? then a.k.CNil? || a.k.CTrue? || a.k.CFalse? || a.k.CStr? || a.k.CNum?
                 else UnaryShape(ops, op, a).k.CNum?;
    Bits(Nothing, Nothing, When(stays, b.e), op.NotOpr? || op.BNotOpr?)
  }

  // Which values the code of x may carry, if the jump before it may carry cin.
  function BitsOf(ops: Ops, x: Expr, cin: Carry): Bits {
    match x
    case EParen(y) => LoadedBits(ShapeOf(ops, y).k, BitsOf(ops, y, cin))
    case EUnary(op, y) => UnaryBits(ops, op, ShapeOf(ops, y), BitsOf(ops, y, cin))
    case EBinary(op, y, z) =>
      var a, b1, d := ShapeOf(ops, y), BitsOf(ops, y, cin), ShapeOf(ops, z);
      if op.AndOpr? || op.OrOpr? then
        var b2 := LoadedBits(d.k, BitsOf(ops, z, GoCarry(a.k, op.OrOpr?, b1)));
        var l := LeaveCarry(a.k, op.OrOpr?, b1);
        if op.OrOpr? then b2.(t := Either(b2.t, Either(b1.t, l))) else b2.(f := Either(b2.f, Either(b1.f, l)))
      else
        Bits(Nothing, Nothing, When(FoldOf(ops, op, a, d).Some?, BitsOf(ops, z, QuietCarry(a, b1)).e), op.CompOpr?)
    case _ => Bits(Nothing, Nothing, cin, x.ETrue? || x.EFalse?)
  }

  // ----- expressions compiled to what they mean -----

  // `-' and `!' on a constant; only a numeral can be negated.
  predicate WrongOperand(ops: Ops, op: UnOpr, a: Shape) {
    Flat(a) &&
    match op
    case MinusOpr => a.k.CNil? || a.k.CTrue? || a.k.CFalse? || (a.k.CNum? && ops.isNaN(ops.unm(a.k.n)))
    case BNotOpr => a.k.CNil? || a.k.CTrue? || a.k.CFalse? || a.k.CNum?
    case _ => false
  }

  // A jump that comes to leave as cond carries nothing but that truth.
  predicate Harmless(k: Carry, cond: bool) {
    k.Nothing? || k == Only(Bool(cond))
  }

  // No `-' or `!' on a constant, and no constant for a left operand that always leaves
  // on which a jump lands that may carry another value.  A right operand never reached is
  // free.
  predicate Fine(ops: Ops, x: Expr, cin: Carry) {
    match x
    case EParen(y) => Fine(ops, y, cin)
    case EUnary(op, y) => Fine(ops, y, cin) && !WrongOperand(ops, op, ShapeOf(ops, y))
    case EBinary(op, y, z) =>
      var a, b := ShapeOf(ops, y), BitsOf(ops, y, cin);
      Fine(ops, y, cin) &&
      if op.AndOpr? || op.OrOpr? then
        var cond := op.OrOpr?;
        (Always(a.k, cond) ==> Harmless(b.e, cond)) &&
        ((Always(a.k, cond) && !(if cond then a.f else a.t)) || Fine(ops, z, GoCarry(a.k, cond, b)))
      else Fine(ops, z, QuietCarry(a, b))
    case _ => true
  }

  // The path delivers the value v and turns by its truth.
  ghost predicate Right(p: Path, v: Option<Value>) {
    match p
    case Fell(w, _) => v == Some(w)
    case Left(t, _) => v == Some(Delivered(p)) && t == !IsFalse(v.value)
    case Failed => v.None?
    case Broke => false
  }

  // The path is one of those the tree allows.
  ghost predicate Allowed(p: Path, a: Shape, b: Bits) {
    match p
    case Fell(v, c) =>
      May(c, b.e) && (b.isBool ==> v.Bool?) && (a.k.CNil? ==> v == Nil) && (a.k.CTrue? ==> v == Bool(true)) &&
      (a.k.CFalse? ==> v == Bool(false)) &&
      (a.k.CNum? ==> v == Num(a.k.n)) && (a.k.CStr? ==> v.Str?) && (a.k.CComp? || a.k.CNot? ==> v.Bool?)
    case Left(t, c) => if t then a.t && May(c, b.t) else a.f && May(c, b.f)
    case _ => true
  }

  lemma UnaryRight(ops: Ops, op: UnOpr, s: FS, e: Exp, p: Path, a: Shape, b: Bits, v: Option<Value>)
    requires ShapeIs(s, e, a) && Allowed(p, a, b) && Right(p, v) && !WrongOperand(ops, op, a)
    ensures var w := if v.None? then None else EvalUnary(ops, op, v.value);
            var p' := UnaryPath(ops, op, s, e, p);
            Right(p', w) && Allowed(p', UnaryShape(ops, op, a), UnaryBits(ops, op, a, b))
  {
  }

  // After the left operand, which leaves by one of its own jumps or goes on.
  lemma TurnRight(s: FS, e: Exp, cond: bool, p: Path, a: Shape, b: Bits, v: Option<Value>)
    requires Inv(s) && ShapeIs(s, e, a) && Allowed(p, a, b) && Right(p, v)
    requires Always(a.k, cond) ==> Harmless(b.e, cond)
    ensures var t := TurnOf(s, e, cond, p);
            if v.None? then t == Stays(Failed)
            else if IsFalse(v.value) == cond then
              t.GoesOn? && May(t.c, GoCarry(a.k, cond, b)) && !(Always(a.k, cond) && !(if cond then a.f else a.t))
            else
              t.Stays? && t.p.Left? && t.p.truth == cond && Right(t.p, v) &&
              ((if cond then a.t else a.f) || !Never(a.k, cond)) &&
              May(t.p.c, Either(if cond then b.t else b.f, LeaveCarry(a.k, cond, b)))
  {
  }

  lemma LoadedRight(s: FS, e: Exp, p: Path, a: Shape, b: Bits, v: Option<Value>)
    requires ShapeIs(s, e, a) && Allowed(p, a, b) && Right(p, v)
    ensures Right(Loaded(e, p), v) && Allowed(Loaded(e, p), a.(k := LoadedClass(a.k)), LoadedBits(a.k, b))
  {
  }

  lemma QuietRight(s: FS, op: BinOpr, e: Exp, f0: int, p: Path, a: Shape, b: Bits, v: Option<Value>)
    requires Inv(s) && ExpInv(s, e, f0) && ShapeIs(s, e, a) && Allowed(p, a, b) && Right(p, v) && !op.AndOpr?
    requires !op.OrOpr?
    requires Ends(p) && Quiet(s, op, e) && p.c.Some?
    ensures May(p.c, QuietCarry(a, b))
  {
    if e.k.VUpval? { UpvalNotQuiet(s, op, e, f0); }
    hide Infix;
  }

  lemma UpvalNotQuiet(s: FS, op: BinOpr, e: Exp, f0: int)
    requires Inv(s) && ExpInv(s, e, f0) && e.k.VUpval? && !op.AndOpr? && !op.OrOpr?
    ensures !Quiet(s, op, e)
  {
    var (s1, e1) := DischargeVars(s, e);
    VarsEmpty(s, e, f0);
    EmitInv(s, OpGetUpval(0, e.k.uv));
    Exp2AnyRegInv(s1, e1, f0);
    Exp2NextRegInv(s1, e1, f0);
    NextRegAfter(s, e, f0);
    hide Emit, Exp2AnyReg, Exp2NextReg;
    assert !HasJumps(e) ==> Exp2Val(s, e) == (s1, e1);
  }

  // Loading an upvalue first is what exp2nextreg does anyway.
  lemma NextRegAfter(s: FS, e: Exp, f0: int)
    requires Inv(s) && ExpInv(s, e, f0) && e.k.VUpval?
    ensures var (s1, e1) := DischargeVars(s, e); Exp2NextReg(s, e) == Exp2NextReg(s1, e1)
  {
    hide Emit, Exp2Reg;
  }

  lemma OperateRight(ops: Ops, op: BinOpr, e1: Exp, e2: Exp, a: Shape, d: Shape, p1: Path, p2: Path, b1: Bits, b2: Bits,
      v: Option<Value>, w: Option<Value>)
    requires !op.AndOpr? && !op.OrOpr? && Right(p1, v) && (v.Some? ==> Right(p2, w)) && Allowed(p1, a, b1)
    requires Allowed(p2, d, b2)
    requires Folds(ops, op, e1, e2) == FoldOf(ops, op, a, d).Some?
    requires Folds(ops, op, e1, e2) ==> ConstFolding(ops, op.op, e1, e2) == FoldOf(ops, op, a, d)
    ensures var p := BinaryPath(ops, op, e1, e2, p1, p2);
            var n := FoldOf(ops, op, a, d);
            Right(p, if v.None? then None else if w.None? then None else Operate(ops, op, v.value, w.value)) &&
            Allowed(p, if op.CompOpr? then Shape(CComp, false, false)
                    else if n.Some? then Shape(CNum(n.value), false, false) else Shape(CValue, false, false),
                    Bits(Nothing, Nothing, When(n.Some?, b2.e), op.CompOpr?))
  {
    if op.CompOpr? && v.Some? && w.Some? {
      assert Operate(ops, op, v.value, w.value).Some? ==> Operate(ops, op, v.value, w.value).value.Bool?;
    }
  }

  // An expression that is fine does what it means, wherever it stands.
  lemma {:induction false} FineRight(ops: Ops, upvals: int -> Value, s: FS, x: Expr, r: Regs, c: Option<Value>,
      cin: Carry)
    requires Inv(s) && LocalsBelow(x, s.nactvar) && Fine(ops, x, cin) && May(c, cin)
    ensures var p := Follow(ops, upvals, s, x, r, c);
            Right(p, Eval(ops, upvals, x, r)) && Allowed(p, ShapeOf(ops, x), BitsOf(ops, x, cin))
    decreases x, 0
  {
    hide Inv, ExpInv, Stepped, Prefix, Infix, Posfix, UnaryPath, TurnOf, Quiet, Folds, Loaded, WrongOperand, Right,
      Allowed, LeaveCarry, GoCarry, QuietCarry, UnaryShape, Never, Always;
    match x {
      case EParen(y) =>
        FineRight(ops, upvals, s, y, r, c, cin);
        GenShape(ops, s, y);
        LoadedRight(Gen(ops, s, y).0, Gen(ops, s, y).1, Follow(ops, upvals, s, y, r, c), ShapeOf(ops, y),
                    BitsOf(ops, y, cin), Eval(ops, upvals, y, r));
      case EUnary(op, y) =>
        FineRight(ops, upvals, s, y, r, c, cin);
        GenShape(ops, s, y);
        UnaryRight(ops, op, Gen(ops, s, y).0, Gen(ops, s, y).1, Follow(ops, upvals, s, y, r, c), ShapeOf(ops, y),
                   BitsOf(ops, y, cin), Eval(ops, upvals, y, r));
      case EBinary(op, y, z) =>
        FineRight(ops, upvals, s, y, r, c, cin);
        if op.AndOpr? || op.OrOpr? {
          LogicRight(ops, upvals, s, op, y, z, r, c, cin);
        } else {
          OperatorRight(ops, upvals, s, op, y, z, r, c, cin);
        }
      case _ => LeafRight(ops, upvals, s, x, r, c, cin);
    }
  }

  lemma LeafRight(ops: Ops, upvals: int -> Value, s: FS, x: Expr, r: Regs, c: Option<Value>, cin: Carry)
    requires !x.EParen? && !x.EUnary? && !x.EBinary? && May(c, cin)
    ensures var p := Follow(ops, upvals, s, x, r, c);
            Right(p, Eval(ops, upvals, x, r)) && Allowed(p, ShapeOf(ops, x), BitsOf(ops, x, cin))
  {
  }

  // The state after the left operand, and its descriptor.
  lemma LeftState(ops: Ops, s: FS, op: BinOpr, y: Expr)
    requires Inv(s) && LocalsBelow(y, s.nactvar)
    ensures var (s1, e1) := Gen(ops, s, y); var s2 := Infix(s1, op, e1).0;
            Inv(s1) && ExpInv(s1, e1, s.freereg) && ShapeIs(s1, e1, ShapeOf(ops, y)) && Inv(s2) &&
            s2.nactvar == s.nactvar
  {
    hide Inv, ExpInv, Stepped, Infix;
    GenShape(ops, s, y);
    GenInv(ops, s, y);
    var (s1, e1) := Gen(ops, s, y);
    SteppedParts(s, s1, e1, s.freereg);
    LeftInv(s1, op, e1, s.freereg);
  }

  lemma LogicRight(ops: Ops, upvals: int -> Value, s: FS, op: BinOpr, y: Expr, z: Expr, r: Regs, c: Option<Value>,
      cin: Carry)
    requires op.AndOpr? || op.OrOpr?
    requires var x := EBinary(op, y, z); Inv(s) && LocalsBelow(x, s.nactvar) && Fine(ops, x, cin) && May(c, cin)
    requires var p := Follow(ops, upvals, s, y, r, c);
             Right(p, Eval(ops, upvals, y, r)) && Allowed(p, ShapeOf(ops, y), BitsOf(ops, y, cin))
    ensures var x := EBinary(op, y, z); var p := Follow(ops, upvals, s, x, r, c);
            Right(p, Eval(ops, upvals, x, r)) && Allowed(p, ShapeOf(ops, x), BitsOf(ops, x, cin))
    decreases z, 1
  {
    hide Inv, ExpInv, Stepped, Infix, TurnOf, Quiet, Folds, Loaded, Right, Allowed, LeaveCarry, GoCarry, Never, Always,
      Gen;
    LeftState(ops, s, op, y);
    var (s1, e1) := Gen(ops, s, y);
    var s2 := Infix(s1, op, e1).0;
    var p1, a, b1, cond := Follow(ops, upvals, s, y, r, c), ShapeOf(ops, y), BitsOf(ops, y, cin), op.OrOpr?;
    var v := Eval(ops, upvals, y, r);
    TurnRight(s1, e1, cond, p1, a, b1, v);
    var t := TurnOf(s1, e1, cond, p1);
    var x := EBinary(op, y, z);
    if t.GoesOn? {
      GenShape(ops, s2, z);
      FineRight(ops, upvals, s2, z, r, t.c, GoCarry(a.k, cond, b1));
      var (s3, e2) := Gen(ops, s2, z);
      LoadedRight(s3, e2, Follow(ops, upvals, s2, z, r, t.c), ShapeOf(ops, z), BitsOf(ops, z, GoCarry(a.k, cond, b1)),
                  Eval(ops, upvals, z, r));
      MoreAllowed(Loaded(e2, Follow(ops, upvals, s2, z, r, t.c)), ops, op, y, z, cin);
    } else {
      StayAllowed(t.p, ops, op, y, z, cin, v);
      NoneRight();
    }
  }

  lemma MoreAllowed(p: Path, ops: Ops, op: BinOpr, y: Expr, z: Expr, cin: Carry)
    requires op.AndOpr? || op.OrOpr?
    requires var a, b1 := ShapeOf(ops, y), BitsOf(ops, y, cin); var b2 := BitsOf(ops, z, GoCarry(a.k, op.OrOpr?, b1));
             var d := ShapeOf(ops, z); Allowed(p, d.(k := LoadedClass(d.k)), LoadedBits(d.k, b2))
    ensures var x := EBinary(op, y, z); Allowed(p, ShapeOf(ops, x), BitsOf(ops, x, cin))
  {
    hide GoCarry, LeaveCarry, Never;
  }

  lemma StayAllowed(p: Path, ops: Ops, op: BinOpr, y: Expr, z: Expr, cin: Carry, v: Option<Value>)
    requires op.AndOpr? || op.OrOpr?
    requires var a, b1, cond := ShapeOf(ops, y), BitsOf(ops, y, cin), op.OrOpr?;
             if v.None? then p == Failed
             else p.Left? && p.truth == cond && ((if cond then a.t else a.f) || !Never(a.k, cond)) &&
                  May(p.c, Either(if cond then b1.t else b1.f, LeaveCarry(a.k, cond, b1)))
    ensures var x := EBinary(op, y, z); Allowed(p, ShapeOf(ops, x), BitsOf(ops, x, cin))
  {
    hide GoCarry, LeaveCarry, Never;
  }

  lemma OperatorRight(ops: Ops, upvals: int -> Value, s: FS, op: BinOpr, y: Expr, z: Expr, r: Regs, c: Option<Value>,
      cin: Carry)
    requires !op.AndOpr? && !op.OrOpr?
    requires var x := EBinary(op, y, z); Inv(s) && LocalsBelow(x, s.nactvar) && Fine(ops, x, cin) && May(c, cin)
    requires var p := Follow(ops, upvals, s, y, r, c);
             Right(p, Eval(ops, upvals, y, r)) && Allowed(p, ShapeOf(ops, y), BitsOf(ops, y, cin))
    ensures var x := EBinary(op, y, z); var p := Follow(ops, upvals, s, x, r, c);
            Right(p, Eval(ops, upvals, x, r)) && Allowed(p, ShapeOf(ops, x), BitsOf(ops, x, cin))
    decreases z, 1
  {
    hide Inv, ExpInv, Stepped, Infix, Posfix, TurnOf, Quiet, Folds, Loaded, Right, Allowed, QuietCarry, Gen, Follow,
      Eval, ShapeOf, BitsOf, Operate;
    LeftState(ops, s, op, y);
    var (s1, e1) := Gen(ops, s, y);
    var (s2, e1') := Infix(s1, op, e1);
    var p1, a, b1, d := Follow(ops, upvals, s, y, r, c), ShapeOf(ops, y), BitsOf(ops, y, cin), ShapeOf(ops, z);
    var v := Eval(ops, upvals, y, r);
    EndsRight(p1, v);
    OperatorSteps(ops, upvals, s, op, y, z, r, c);
    OperatorValue(ops, upvals, op, y, z, r);
    OperatorTree(ops, op, y, z, cin);
    if Ends(p1) {
      var c2 := if Quiet(s1, op, e1) then p1.c else None;
      if c2.Some? { QuietRight(s1, op, e1, s.freereg, p1, a, b1, v); }
      FineRight(ops, upvals, s2, z, r, c2, QuietCarry(a, b1));
      RightOperand(ops, s1, op, e1, s2, e1', z, s.freereg, a);
      OperateRight(ops, op, e1', Gen(ops, s2, z).1, a, d, p1, Follow(ops, upvals, s2, z, r, c2), b1,
                   BitsOf(ops, z, QuietCarry(a, b1)), v, Eval(ops, upvals, z, r));
    } else {
      FailsRight(p1, v);
    }
  }

  // What path, value, shape and bits of a binary expression are, and when it is fine.
  lemma OperatorSteps(ops: Ops, upvals: int -> Value, s: FS, op: BinOpr, y: Expr, z: Expr, r: Regs, c: Option<Value>)
    requires !op.AndOpr? && !op.OrOpr?
    ensures var (s1, e1) := Gen(ops, s, y); var (s2, e1') := Infix(s1, op, e1);
            var p1 := Follow(ops, upvals, s, y, r, c);
            Follow(ops, upvals, s, EBinary(op, y, z), r, c) ==
              if Ends(p1) then
                BinaryPath(ops, op, e1', Gen(ops, s2, z).1, p1,
                           Follow(ops, upvals, s2, z, r, if Quiet(s1, op, e1) then p1.c else None))
              else p1
  {
    hide Infix, Gen, Quiet, Folds, QuietCarry, ConstFolding, Operate;
  }

  lemma OperatorValue(ops: Ops, upvals: int -> Value, op: BinOpr, y: Expr, z: Expr, r: Regs)
    requires !op.AndOpr? && !op.OrOpr?
    ensures var v, w := Eval(ops, upvals, y, r), Eval(ops, upvals, z, r);
            Eval(ops, upvals, EBinary(op, y, z), r) ==
              if v.None? then None else if w.None? then None else Operate(ops, op, v.value, w.value)
  {
    hide EvalComp, Arith;
  }

  lemma OperatorTree(ops: Ops, op: BinOpr, y: Expr, z: Expr, cin: Carry)
    requires !op.AndOpr? && !op.OrOpr?
    ensures var x, a, d := EBinary(op, y, z), ShapeOf(ops, y), ShapeOf(ops, z);
      var q := QuietCarry(a, BitsOf(ops, y, cin)); var n := FoldOf(ops, op, a, d);
      && (Fine(ops, x, cin) ==> Fine(ops, z, q))
      && ShapeOf(ops, x) ==
           (if op.CompOpr? then Shape(CComp, false, false) else if n.Some? then Shape(CNum(n.value), false, false)
            else Shape(CValue, false, false))
      && BitsOf(ops, x, cin) == Bits(Nothing, Nothing, When(n.Some?, BitsOf(ops, z, q).e), op.CompOpr?)
  {
    hide QuietCarry, ConstFolding;
  }

  lemma RightOperand(ops: Ops, s1: FS, op: BinOpr, e1: Exp, s2: FS, e1': Exp, z: Expr, f0: int, a: Shape)
    requires !op.AndOpr? && !op.OrOpr? && (s2, e1') == Infix(s1, op, e1)
    requires Inv(s1) && ExpInv(s1, e1, f0) && ShapeIs(s1, e1, a) && Inv(s2) && LocalsBelow(z, s2.nactvar)
    ensures var e2 := Gen(ops, s2, z).1; var n := FoldOf(ops, op, a, ShapeOf(ops, z));
            Folds(ops, op, e1', e2) == n.Some? && (Folds(ops, op, e1', e2) ==> ConstFolding(ops, op.op, e1', e2) == n)
  {
    hide Inv, ExpInv, Stepped, Infix, Gen, Folds, FoldOf, ConstFolding;
    GenShape(ops, s2, z);
    GenInv(ops, s2, z);
    var (s3, e2) := Gen(ops, s2, z);
    OperatorShape(ops, s1, op, e1, s2, e1', s3, e2, f0, a, ShapeOf(ops, z));
  }

  lemma NoneRight()
    ensures Right(Failed, None)
  {
  }

  lemma EndsRight(p: Path, v: Option<Value>)
    requires Right(p, v)
    ensures Ends(p) <==> v.Some?
  {
  }

  lemma FailsRight(p: Path, v: Option<Value>)
    requires Right(p, v) && !Ends(p)
    ensures p == Failed && v.None? && Right(p, None) && forall a, b :: Allowed(p, a, b)
  {
  }

  // ----- return statements -----

  lemma RightShown(p: Path, v: Option<Value>)
    requires Right(p, v)
    ensures Shown(p) == if v.Some? then Returned([v.value]) else Errored
  {
  }

  lemma FineOutcome(ops: Ops, upvals: int -> Value, s0: FS, x: Expr, r: Regs)
    requires Inv(s0) && LocalsBelow(x, s0.nactvar) && Fine(ops, x, Nothing)
    ensures CodeOutcome(ops, upvals, s0, x, r) == Meaning(ops, upvals, x, r)
  {
    hide Inv, Follow, Right, Allowed;
    FineRight(ops, upvals, s0, x, r, None, Nothing);
    RightShown(Follow(ops, upvals, s0, x, r, None), Eval(ops, upvals, x, r));
  }

  // A fine expression that fits: the function returns its value, or fails if it has none.
  lemma FineReturn(m: Machine, nparams: nat, x: Expr, r0: Regs)
    requires nparams <= 200 && LocalsBelow(x, nparams) && EntryRegs(r0, nparams)
    requires Fine(m.ops, x, Nothing) && nparams + Need(x) < MAXSTACK
    requires m.k == ReturnOne(m.ops, NewFunction(nparams), x).k
    ensures RunsTo(m, ReturnOne(m.ops, NewFunction(nparams), x).code, Running(0, r0),
                   Meaning(m.ops, m.upvals, x, r0))
  {
    var s0 := NewFunction(nparams);
    ReturnFits(m.ops, s0, x);
    FineOutcome(m.ops, m.upvals, s0, x, r0);
    var s := ReturnOne(m.ops, s0, x);
    hide ReturnOne, RunsTo, Follow, Right, Allowed;
    FinishedRuns(m, s0, s.code, x, r0);
  }

  // The operand is a constant with no code to it, which there is room to keep among the
  // first constants, or a numeral for `!'.
  predicate WrongUnary(ops: Ops, s0: FS, op: UnOpr, y: Expr) {
    var a := ShapeOf(ops, y);
    WrongOperand(ops, op, a) && ((op.BNotOpr? && a.k.CNum?) || |Gen(ops, s0, y).0.k| <= MAXINDEXRK)
  }

  // `-y' and `!y' for a fine y are right but for such operands, and then they are wrong
  // for every upvalue and argument, unless y itself fails.
  lemma UnarySite(ops: Ops, upvals: int -> Value, s0: FS, op: UnOpr, y: Expr, r: Regs)
    requires Inv(s0) && LocalsBelow(y, s0.nactvar) && Fine(ops, y, Nothing) && (op.MinusOpr? || op.BNotOpr?)
    ensures var x := EUnary(op, y);
            CodeOutcome(ops, upvals, s0, x, r) == Meaning(ops, upvals, x, r) <==>
            !WrongUnary(ops, s0, op, y) || Eval(ops, upvals, y, r).None?
  {
    hide Inv, Gen, Follow;
    FineRight(ops, upvals, s0, y, r, None, Nothing);
    GenShape(ops, s0, y);
    var (s1, e1) := Gen(ops, s0, y);
    var p := Follow(ops, upvals, s0, y, r, None);
    assert Follow(ops, upvals, s0, EUnary(op, y), r, None) ==
           UnaryPath(ops, op, s1, e1, p) by { FollowUnary(ops, upvals, s0, op, y, r); }
    var v := Eval(ops, upvals, y, r);
    hide ShapeOf, BitsOf, Fine;
    UnaryWrong(ops, s1, op, e1, p, ShapeOf(ops, y), BitsOf(ops, y, Nothing), v);
  }

  lemma FollowUnary(ops: Ops, upvals: int -> Value, s0: FS, op: UnOpr, y: Expr, r: Regs)
    ensures var (s1, e1) := Gen(ops, s0, y);
            Follow(ops, upvals, s0, EUnary(op, y), r, None) ==
            UnaryPath(ops, op, s1, e1, Follow(ops, upvals, s0, y, r, None))
  {
    hide Gen, UnaryPath;
  }

  lemma UnaryWrong(ops: Ops, s: FS, op: UnOpr, e: Exp, p: Path, a: Shape, b: Bits, v: Option<Value>)
    requires ShapeIs(s, e, a) && Allowed(p, a, b) && Right(p, v) && (op.MinusOpr? || op.BNotOpr?)
    ensures var w := if v.None? then None else EvalUnary(ops, op, v.value);
            Shown(UnaryPath(ops, op, s, e, p)) == (if w.Some? then Returned([w.value]) else Errored) <==>
            !(WrongOperand(ops, op, a) && ((op.BNotOpr? && a.k.CNum?) || |s.k| <= MAXINDEXRK)) || v.None?
  {
    var p' := UnaryPath(ops, op, s, e, p);
    if Shown(p').Returned? { assert Shown(p').vs[0] == Delivered(p'); }
    if v.Some? {
      var w := EvalUnary(ops, op, v.value);
      if w.Some? { assert [w.value][0] == w.value; }
    }
  }

  // A jump that carries some other value lands on the constant y ends with.
  predicate Misled(p: Path, k: Class, cond: bool) {
    Always(k, cond) && p.Fell? && p.c.Some? && p.c.value != p.v
  }

  // `y and z' and `y or z', for a fine y and a fine z, are right but when the run of y
  // lands on a constant that then always leaves, carrying another value.
  lemma LogicSite(ops: Ops, upvals: int -> Value, s0: FS, op: BinOpr, y: Expr, z: Expr, r: Regs)
    requires Inv(s0) && LocalsBelow(EBinary(op, y, z), s0.nactvar) && (op.AndOpr? || op.OrOpr?)
    requires Fine(ops, y, Nothing) && Fine(ops, z, GoCarry(ShapeOf(ops, y).k, op.OrOpr?, BitsOf(ops, y, Nothing)))
    ensures var x := EBinary(op, y, z);
            CodeOutcome(ops, upvals, s0, x, r) == Meaning(ops, upvals, x, r) <==>
            !Misled(Follow(ops, upvals, s0, y, r, None), ShapeOf(ops, y).k, op.OrOpr?)
  {
    hide Inv, ExpInv, Infix, Gen, Loaded, Right, Allowed, GoCarry, TurnOf, Follow, Fine, BitsOf, ShapeOf;
    FineRight(ops, upvals, s0, y, r, None, Nothing);
    LeftState(ops, s0, op, y);
    var (s1, e1) := Gen(ops, s0, y);
    var s2 := Infix(s1, op, e1).0;
    var p, a, b, cond := Follow(ops, upvals, s0, y, r, None), ShapeOf(ops, y), BitsOf(ops, y, Nothing), op.OrOpr?;
    var v := Eval(ops, upvals, y, r);
    var t := TurnOf(s1, e1, cond, p);
    TurnExact(s1, e1, cond, p, a, b, v);
    if t.GoesOn? {
      GenShape(ops, s2, z);
      FineRight(ops, upvals, s2, z, r, t.c, GoCarry(a.k, cond, b));
      var e2 := Gen(ops, s2, z).1;
      var p2 := Follow(ops, upvals, s2, z, r, t.c);
      LoadedRight(Gen(ops, s2, z).0, e2, p2, ShapeOf(ops, z), BitsOf(ops, z, GoCarry(a.k, cond, b)),
                  Eval(ops, upvals, z, r));
      RightShown(Loaded(e2, p2), Eval(ops, upvals, z, r));
    }
    FollowLogic(ops, upvals, s0, op, y, z, r);
  }

  lemma FollowLogic(ops: Ops, upvals: int -> Value, s0: FS, op: BinOpr, y: Expr, z: Expr, r: Regs)
    requires op.AndOpr? || op.OrOpr?
    ensures var (s1, e1) := Gen(ops, s0, y); var s2 := Infix(s1, op, e1).0; var e2 := Gen(ops, s2, z).1;
            var t := TurnOf(s1, e1, op.OrOpr?, Follow(ops, upvals, s0, y, r, None));
            Follow(ops, upvals, s0, EBinary(op, y, z), r, None) == if t.Stays? then t.p
            else Loaded(e2, Follow(ops, upvals, s2, z, r, t.c))
  {
    hide Gen, Infix, TurnOf, Loaded;
  }

  lemma TurnExact(s: FS, e: Exp, cond: bool, p: Path, a: Shape, b: Bits, v: Option<Value>)
    requires Inv(s) && ShapeIs(s, e, a) && Allowed(p, a, b) && Right(p, v)
    ensures var t := TurnOf(s, e, cond, p);
            if t.GoesOn? then
              v.Some? && IsFalse(v.value) == cond && May(t.c, GoCarry(a.k, cond, b)) && !Misled(p, a.k, cond)
            else
              (v.Some? ==> IsFalse(v.value) != cond) &&
              (Shown(t.p) == (if v.Some? then Returned([v.value]) else Errored) <==> !Misled(p, a.k, cond))
  {
    var t := TurnOf(s, e, cond, p);
    if t.Stays? && Shown(t.p).Returned? { assert Shown(t.p).vs[0] == Delivered(t.p); }
    if v.Some? { assert [v.value][0] == v.value; }
  }
}
