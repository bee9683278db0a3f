// How many registers the code of an expression takes, by its tree alone.

module CodeGenFits {
  import opened LuaValue
  import opened LuaVM
  import opened CodeGen
  import opened CodeGenInv
  import opened CodeGenSound
  import opened Precedence
  import opened FuncStates
  import opened ExprParsers
  import opened ReturnStat

  function Max(a: int, b: int): int {
    if a < b then b else a
  }

  // How many registers above the first free one an expression may take.
  function Need(x: Expr): (n: int)
    ensures n >= 1
  {
    match x
    case EParen(y) => Need(y)
    case EUnary(_, y) => Need(y)
    case EBinary(op, y, z) => if op.AndOpr? || op.OrOpr? then Max(Need(y), Need(z)) else Max(Need(y), 1 + Need(z))
    case _ => 1
  }

  // From s to s', with registers below `top' in use: no overflow.
  ghost predicate Clean(s: FS, s': FS, top: int) {
    top < MAXSTACK ==> s'.overflow == s.overflow
  }

  predicate SameFlags(s: FS, s': FS) {
    s'.overflow == s.overflow && s'.freereg == s.freereg
  }

  lemma EmitClean(s: FS, i: Instr)
    ensures SameFlags(s, CodeGen.Emit(s, i))
  {
  }

  lemma DischargeVarsClean(s: FS, e: Exp)
    ensures SameFlags(s, CodeGen.DischargeVars(s, e).0)
  {
    hide PatchListAux;
  }

  lemma LoadClean(s: FS, k: Kind, reg: int)
    ensures SameFlags(s, Load(s, k, reg))
  {
    hide PatchListAux;
  }

  lemma Discharge2RegClean(s: FS, e: Exp, reg: int)
    ensures SameFlags(s, CodeGen.Discharge2Reg(s, e, reg).0)
  {
    DischargeVarsClean(s, e);
    var (s1, e1) := CodeGen.DischargeVars(s, e);
    LoadClean(s1, e1.k, reg);
    hide CodeGen.DischargeVars, Load;
  }

  lemma Discharge2AnyRegClean(s: FS, e: Exp)
    ensures Clean(s, CodeGen.Discharge2AnyReg(s, e).0, s.freereg + 1)
  {
    Discharge2RegClean(CodeGen.ReserveRegs(s, 1), e, s.freereg);
    hide CodeGen.Discharge2Reg;
  }

  lemma LoadLabelsClean(s: FS, e: Exp, reg: int)
    ensures SameFlags(s, CodeGen.LoadLabels(s, e, reg).0)
  {
    hide PatchListAux;
  }

  lemma Exp2RegClean(s0: FS, e0: Exp, reg: int)
    ensures SameFlags(s0, CodeGen.Exp2Reg(s0, e0, reg).0)
  {
    Discharge2RegClean(s0, e0, reg);
    var (s, e) := CodeGen.Discharge2Reg(s0, e0, reg);
    LoadLabelsClean(s, e, reg);
    hide CodeGen.Discharge2Reg, CodeGen.LoadLabels, PatchListAux, NeedValue;
  }

  lemma Exp2NextRegClean(s0: FS, e0: Exp, f0: int)
    requires Inv(s0) && ExpInv(s0, e0, f0)
    ensures Clean(s0, CodeGen.Exp2NextReg(s0, e0).0, f0 + 1)
  {
    DischargeVarsClean(s0, e0);
    ExpInvAfter(s0, e0, f0);
    var (s, e) := CodeGen.DischargeVars(s0, e0);
    var s1 := CodeGen.ReserveRegs(CodeGen.FreeExp(s, e), 1);
    Exp2RegClean(s1, e, s1.freereg - 1);
    hide CodeGen.DischargeVars, CodeGen.Exp2Reg;
  }

  lemma Exp2AnyRegClean(s0: FS, e0: Exp, f0: int)
    requires Inv(s0) && ExpInv(s0, e0, f0)
    ensures Clean(s0, CodeGen.Exp2AnyReg(s0, e0).0, f0 + 1)
  {
    DischargeVarsClean(s0, e0);
    DischargeVarsInv(s0, e0, f0);
    var (s, e) := CodeGen.DischargeVars(s0, e0);
    if e.k.VNonreloc? { Exp2RegClean(s, e, e.k.reg); }
    Exp2NextRegClean(s, e, f0);
    hide CodeGen.DischargeVars, CodeGen.Exp2Reg, CodeGen.Exp2NextReg;
  }

  lemma Exp2ValClean(s: FS, e: Exp, f0: int)
    requires Inv(s) && ExpInv(s, e, f0)
    ensures Clean(s, CodeGen.Exp2Val(s, e).0, f0 + 1)
  {
    Exp2AnyRegClean(s, e, f0);
    DischargeVarsClean(s, e);
    hide CodeGen.DischargeVars, CodeGen.Exp2AnyReg;
  }

  lemma Exp2RKClean(s0: FS, e0: Exp, f0: int)
    requires Inv(s0) && ExpInv(s0, e0, f0)
    ensures Clean(s0, CodeGen.Exp2RK(s0, e0).0, f0 + 1)
  {
    Exp2ValClean(s0, e0, f0);
    Exp2ValInv(s0, e0, f0);
    var (s, e) := CodeGen.Exp2Val(s0, e0);
    Exp2AnyRegClean(s, e, f0);
    hide CodeGen.Exp2Val, CodeGen.Exp2AnyReg;
  }

  // A first operand that is a numeral may still need a register.
  lemma FirstOperandClean(s: FS, e: Exp, f0: int, f1: int)
    requires Inv(s) && Waiting(s, e, f0, f1) && f1 <= s.freereg
    ensures Clean(s, CodeGen.Exp2RK(s, e).0, if e.k.VKNum? then s.freereg + 1 else 0)
  {
    if e.k.VKNum? {
      assert ExpInv(s, e, s.freereg);
      Exp2RKClean(s, e, s.freereg);
    } else {
      hide CodeGen.Exp2Reg, CodeGen.Exp2NextReg;
    }
  }

  lemma CondJumpClean(s: FS, i: Instr)
    ensures SameFlags(s, CodeGen.CondJump(s, i).0)
  {
    hide PatchListAux;
  }

  lemma JumpOnCondClean(s: FS, e: Exp, cond: bool, f0: int)
    requires Inv(s) && ExpInv(s, e, f0)
    ensures Clean(s, CodeGen.JumpOnCond(s, e, cond).0, f0 + 1)
  {
    if e.k.VReloc? && 0 <= e.k.pc < |s.code| && s.code[e.k.pc].OpNot? {
      CondJumpClean(s.(code := s.code[..|s.code| - 1]), OpTest(s.code[e.k.pc].b, !cond));
    } else {
      Discharge2AnyRegClean(s, e);
      var (s1, e1) := CodeGen.Discharge2AnyReg(s, e);
      CondJumpClean(CodeGen.FreeExp(s1, e1), OpTestSet(NO_REG, RegOf(e1), cond));
    }
    hide CodeGen.CondJump, CodeGen.Discharge2AnyReg;
  }

  lemma GoIfTrueClean(s0: FS, e0: Exp, f0: int)
    requires Inv(s0) && ExpInv(s0, e0, f0)
    ensures Clean(s0, CodeGen.GoIfTrue(s0, e0).0, f0 + 1)
  {
    DischargeVarsClean(s0, e0);
    DischargeVarsInv(s0, e0, f0);
    var (s, e) := CodeGen.DischargeVars(s0, e0);
    JumpOnCondClean(s, e, false, f0);
    hide CodeGen.DischargeVars, CodeGen.JumpOnCond;
  }

  lemma GoIfFalseClean(s0: FS, e0: Exp, f0: int)
    requires Inv(s0) && ExpInv(s0, e0, f0)
    ensures Clean(s0, CodeGen.GoIfFalse(s0, e0).0, f0 + 1)
  {
    DischargeVarsClean(s0, e0);
    DischargeVarsInv(s0, e0, f0);
    var (s, e) := CodeGen.DischargeVars(s0, e0);
    JumpOnCondClean(s, e, true, f0);
    hide CodeGen.DischargeVars, CodeGen.JumpOnCond;
  }

  lemma CodeNotClean(s0: FS, e0: Exp, f0: int)
    requires Inv(s0) && ExpInv(s0, e0, f0)
    ensures Clean(s0, CodeGen.CodeNot(s0, e0).0, f0 + 1)
  {
    DischargeVarsClean(s0, e0);
    DischargeVarsInv(s0, e0, f0);
    var (s, e) := CodeGen.DischargeVars(s0, e0);
    Discharge2AnyRegClean(s, e);
    hide CodeGen.DischargeVars, CodeGen.Discharge2AnyReg, CodeGen.RemoveValues, PatchListAux;
  }

  lemma ArithRegs(s: FS, e1: Exp, e2: Exp, f0: int, f1: int)
    requires Inv(s) && Waiting(s, e1, f0, f1) && ExpInv(s, e2, f1)
    ensures var (s1, e2', _) := CodeGen.Exp2RK(s, e2);
            f1 <= s1.freereg && f1 <= f0 + 1 && (e1.k.VKNum? ==> s1.freereg <= f0 + 1) && Inv(s1) &&
            Waiting(s1, e1, f0, f1)
  {
    Exp2RKInv(s, e2, f1);
    hide CodeGen.Exp2RK;
    OperandReady(s, e2, e1, f0, f1);
  }

  lemma CodeArithClean(ops: Ops, s: FS, op: ArithOp, e1: Exp, e2: Exp, f0: int, f1: int)
    requires Inv(s) && Waiting(s, e1, f0, f1) && ExpInv(s, e2, f1)
    ensures Clean(s, CodeGen.CodeArith(ops, s, op, e1, e2).0, f0 + 2)
  {
    hide CodeGen.Exp2RK, PatchListAux, ConstFolding, Inv, ExpInv, Waiting;
    ArithRegs(s, e1, e2, f0, f1);
    Exp2RKClean(s, e2, f1);
    FirstOperandClean(CodeGen.Exp2RK(s, e2).0, e1, f0, f1);
  }

  lemma CodeUnaryClean(ops: Ops, s: FS, op: UnOpr, e: Exp, f0: int)
    requires Inv(s) && ExpInv(s, e, f0) && !op.NotOpr?
    ensures Clean(s, CodeGen.CodeUnary(ops, s, op, e).0, f0 + 1)
  {
    Exp2RKClean(s, e, f0);
    hide CodeGen.Exp2RK, PatchListAux;
  }

  lemma PrefixClean(ops: Ops, s: FS, op: UnOpr, e: Exp, f0: int)
    requires Inv(s) && ExpInv(s, e, f0)
    ensures Clean(s, CodeGen.Prefix(ops, s, op, e).0, f0 + 1)
  {
    hide CodeGen.CodeUnary, CodeGen.CodeNot, CodeGen.Exp2AnyReg;
    if op.NotOpr? {
      CodeNotClean(s, e, f0);
    } else if op.LenOpr? || e.k.VK? {
      Exp2AnyRegInv(s, e, f0);
      Exp2AnyRegClean(s, e, f0);
      var (s1, e1) := CodeGen.Exp2AnyReg(s, e);
      CodeUnaryClean(ops, s1, op, e1, f0);
    } else {
      CodeUnaryClean(ops, s, op, e, f0);
    }
  }

  lemma InfixClean(s: FS, op: BinOpr, e: Exp, f0: int)
    requires Inv(s) && ExpInv(s, e, f0)
    ensures Clean(s, CodeGen.Infix(s, op, e).0, f0 + 1)
  {
    hide CodeGen.GoIfTrue, CodeGen.GoIfFalse, CodeGen.Exp2NextReg, CodeGen.Exp2RK;
    match op {
      case AndOpr => GoIfTrueClean(s, e, f0);
      case OrOpr => GoIfFalseClean(s, e, f0);
      case ConcatOpr => Exp2NextRegClean(s, e, f0);
      case ArithOpr(_) => Exp2RKClean(s, e, f0);
      case CompOpr(_) => Exp2RKClean(s, e, f0);
    }
  }

  lemma CodeCompClean(s: FS, rel: Relation, e1: Exp, e2: Exp, f0: int, f1: int)
    requires Inv(s) && Waiting(s, e1, f0, f1) && ExpInv(s, e2, f1) && !e1.k.VKNum?
    ensures Clean(s, CodeGen.CodeComp(s, rel, e1, e2).0, f1 + 1)
  {
    CompReady(s, e1, e2, f0, f1);
    Exp2RKClean(s, e2, f1);
    hide CodeGen.Exp2RK, PatchListAux;
  }

  lemma CodeConcatClean(s: FS, e1: Exp, e2: Exp, f0: int)
    requires Inv(s) && e1 == Exp(VNonreloc(f0), [], []) && s.nactvar <= f0 && ExpInv(s, e2, f0 + 1)
    ensures Clean(s, CodeGen.CodeConcat(s, e1, e2).0, f0 + 2)
  {
    Exp2ValClean(s, e2, f0 + 1);
    Exp2ValInv(s, e2, f0 + 1);
    var (s1, e2') := CodeGen.Exp2Val(s, e2);
    Exp2NextRegClean(s1, e2', f0 + 1);
    ConcatCases(s, e1, e2, f0);
    hide CodeGen.Exp2Val, CodeGen.Exp2NextReg, PatchListAux, CodeGen.CodeConcat;
  }

  lemma PosfixClean(ops: Ops, s: FS, op: BinOpr, e1: Exp, e2: Exp, f0: int, f1: int)
    requires Inv(s) && ExpInv(s, e2, f1)
    requires !op.AndOpr? && !op.OrOpr? ==>
               Waiting(s, e1, f0, f1) && (op.ConcatOpr? ==> e1 == Exp(VNonreloc(f0), [], [])) &&
               (op.CompOpr? ==> !e1.k.VKNum?)
    ensures Clean(s, CodeGen.Posfix(ops, s, op, e1, e2).0, if op.AndOpr? || op.OrOpr? then f0 else f0 + 2)
  {
    hide CodeGen.CodeArith, CodeGen.CodeConcat, CodeGen.CodeComp, CodeGen.DischargeVars;
    DischargeVarsClean(s, e2);
    match op {
      case AndOpr =>
      case OrOpr =>
      case ConcatOpr => CodeConcatClean(s, e1, e2, f0);
      case ArithOpr(aop) => CodeArithClean(ops, s, aop, e1, e2, f0, f1);
      case CompOpr(rel) => CodeCompClean(s, rel, e1, e2, f0, f1);
    }
  }

  // An expression that needs fewer registers than there are does not overflow, wherever
  // it stands.
  lemma {:induction false} GenFits(ops: Ops, s: FS, x: Expr)
    requires Inv(s) && LocalsBelow(x, s.nactvar)
    ensures Clean(s, Gen(ops, s, x).0, s.freereg + Need(x))
    decreases x
  {
    hide Prefix, Infix, Posfix, CodeGen.DischargeVars, Inv, ExpInv, Stepped, Frame, Fresh, Waiting, Waits;
    var f0 := s.freereg;
    match x {
      case EParen(y) =>
        GenFits(ops, s, y);
        var (s1, e) := Gen(ops, s, y);
        DischargeVarsClean(s1, e);
      case EUnary(op, y) =>
        GenFits(ops, s, y);
        var (s1, e) := Gen(ops, s, y);
        GenInv(ops, s, y);
        SteppedParts(s, s1, e, f0);
        PrefixClean(ops, s1, op, e, f0);
      case EBinary(op, y, z) =>
        LocalsInside(op, y, z, s.nactvar);
        GenFits(ops, s, y);
        var (s1, e1) := Gen(ops, s, y);
        LeftFits(ops, s, op, y, s1, e1);
        var (s2, e1') := Infix(s1, op, e1);
        GenFits(ops, s2, z);
        var (s3, e2) := Gen(ops, s2, z);
        RightFits(ops, s, op, y, z, s1, e1, s2, e1', s3, e2);
      case _ =>
    }
  }

  lemma LeftFits(ops: Ops, s: FS, op: BinOpr, y: Expr, s1: FS, e1: Exp)
    requires Inv(s) && LocalsBelow(y, s.nactvar) && (s1, e1) == Gen(ops, s, y)
    ensures Inv(s1) && ExpInv(s1, e1, s.freereg) && s1.nactvar == s.nactvar
    ensures var s2 := CodeGen.Infix(s1, op, e1).0;
            Clean(s1, s2, s.freereg + 1) && Inv(s2) && s2.nactvar == s.nactvar &&
            s2.freereg <= s.freereg + (if op.AndOpr? || op.OrOpr? then 0 else 1)
  {
    hide CodeGen.Infix, Inv, ExpInv, Stepped, Frame, Fresh, Gen, Clean;
    GenInv(ops, s, y);
    SteppedParts(s, s1, e1, s.freereg);
    InfixClean(s1, op, e1, s.freereg);
    BeforeRight(s1, op, e1, s.freereg);
  }

  lemma RightFits(ops: Ops, s: FS, op: BinOpr, y: Expr, z: Expr, s1: FS, e1: Exp, s2: FS, e1': Exp, s3: FS, e2: Exp)
    requires Inv(s) && LocalsBelow(y, s.nactvar) && LocalsBelow(z, s.nactvar)
    requires (s1, e1) == Gen(ops, s, y) && Clean(s, s1, s.freereg + Need(y))
    requires (s2, e1') == CodeGen.Infix(s1, op, e1)
    requires (s3, e2) == Gen(ops, s2, z) && Clean(s2, s3, s2.freereg + Need(z))
    ensures Clean(s, CodeGen.Posfix(ops, s3, op, e1', e2).0, s.freereg + Need(EBinary(op, y, z)))
  {
    hide CodeGen.Infix, CodeGen.Posfix, Inv, ExpInv, Stepped, Frame, Fresh, Waiting, Waits, Gen, Clean, Need, Max;
    LeftFits(ops, s, op, y, s1, e1);
    GenInv(ops, s2, z);
    SteppedParts(s2, s3, e2, s2.freereg);
    BetweenOperands(ops, s1, op, e1, s2, e1', s3, e2, s.freereg);
    PosfixClean(ops, s3, op, e1', e2, s.freereg, s2.freereg);
    NeedBinary(op, y, z);
    FourClean(s, s1, s2, s3, CodeGen.Posfix(ops, s3, op, e1', e2).0, s.freereg + Need(y), s.freereg + 1,
              s2.freereg + Need(z),
              if op.AndOpr? || op.OrOpr? then s.freereg else s.freereg + 2, s.freereg + Need(EBinary(op, y, z)));
  }

  lemma NeedBinary(op: BinOpr, y: Expr, z: Expr)
    ensures var n := Need(EBinary(op, y, z));
            n >= Need(y) && n >= 1 && if op.AndOpr? || op.OrOpr? then n >= Need(z) else n >= 1 + Need(z) && n >= 2
  {
  }

  lemma FourClean(s: FS, s1: FS, s2: FS, s3: FS, s4: FS, a: int, b: int, c: int, d: int, top: int)
    requires Clean(s, s1, a) && Clean(s1, s2, b) && Clean(s2, s3, c) && Clean(s3, s4, d)
    requires a <= top && b <= top && c <= top && d <= top
    ensures Clean(s, s4, top)
  {
  }

  lemma LocalsInside(op: BinOpr, y: Expr, z: Expr, n: int)
    requires LocalsBelow(EBinary(op, y, z), n)
    ensures LocalsBelow(y, n) && LocalsBelow(z, n)
  {
  }

  lemma BeforeRight(s1: FS, op: BinOpr, e1: Exp, f0: int)
    requires Inv(s1) && ExpInv(s1, e1, f0)
    ensures var s2 := CodeGen.Infix(s1, op, e1).0;
            Inv(s2) && s2.nactvar == s1.nactvar && s2.freereg <= f0 + (if op.AndOpr? || op.OrOpr? then 0 else 1)
  {
    LeftInv(s1, op, e1, f0);
    if op.AndOpr? {
      GoIfTrueInv(s1, e1, f0);
    } else if op.OrOpr? {
      GoIfFalseInv(s1, e1, f0);
    } else {
      InfixInv(s1, op, e1, f0);
    }
  }

  // So does the whole statement.
  lemma ReturnFits(ops: Ops, s: FS, x: Expr)
    requires Inv(s) && LocalsBelow(x, s.nactvar) && s.freereg + Need(x) < MAXSTACK
    ensures ReturnOne(ops, s, x).overflow == s.overflow
  {
    hide Gen, Inv, ExpInv, Stepped, CodeGen.Exp2AnyReg, CodeGen.Emit, LocalsBelow, Need;
    GenFits(ops, s, x);
    GenInv(ops, s, x);
    var (s1, e1) := Gen(ops, s, x);
    SteppedParts(s, s1, e1, s.freereg);
    Exp2AnyRegClean(s1, e1, s.freereg);
    var (s2, e2) := CodeGen.Exp2AnyReg(s1, e1);
    EmitClean(s2, OpReturn(RegOf(e2), 2));
  }
}
