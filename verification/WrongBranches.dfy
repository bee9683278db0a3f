// Inputs on which the code does not return what the source says.

module WrongBranches {
  import opened LuaValue
  import opened LuaVM
  import opened CodeGen
  import opened CodeGenInv
  import opened CodeMeaning
  import opened CodeGenFits
  import opened CodeRight
  import opened ReturnStat
  import opened Options

  // A function without parameters ends as the path of its expression says.
  lemma EndsLike(ops: Ops, upvals: int -> Value, x: Expr, r0: Regs)
    requires LocalsBelow(x, 0) && Need(x) < MAXSTACK && EntryRegs(r0, 0)
    ensures var s := ReturnOne(ops, NewFunction(0), x); var m := Machine(ops, upvals, s.k);
            RunsTo(m, s.code, Running(0, r0), CodeOutcome(ops, upvals, NewFunction(0), x, r0))
  {
    hide ReturnOne, RunsTo, Follow, Need;
    var s0 := NewFunction(0);
    ReturnFits(ops, s0, x);
    var s := ReturnOne(ops, s0, x);
    FinishedRuns(Machine(ops, upvals, s.k), s0, s.code, x, r0);
  }

  // `return !5' returns 0, not false.
  lemma BangNumeral(ops: Ops, upvals: int -> Value, r0: Regs)
    requires EntryRegs(r0, 0)
    ensures var x := EUnary(BNotOpr, ENum(5.0)); var s := ReturnOne(ops, NewFunction(0), x);
            var m := Machine(ops, upvals, s.k);
            RunsTo(m, s.code, Running(0, r0), Returned([Num(0.0)])) &&
            Meaning(ops, upvals, x, r0) == Returned([Bool(false)])
  {
    hide ReturnOne, RunsTo, Gen, Follow;
    var x := EUnary(BNotOpr, ENum(5.0));
    EndsLike(ops, upvals, x, r0);
    Numeral(ops, upvals, 5.0, r0);
    FollowUnary(ops, upvals, NewFunction(0), BNotOpr, ENum(5.0), r0);
    assert Eval(ops, upvals, ENum(5.0), r0) == Some(Num(5.0));
  }

  lemma Numeral(ops: Ops, upvals: int -> Value, n: real, r0: Regs)
    ensures var s0 := NewFunction(0);
            Gen(ops, s0, ENum(n)) == (s0, Exp(VKNum(n), [], [])) &&
            Follow(ops, upvals, s0, ENum(n), r0, None) == Fell(Num(n), None)
  {
  }

  // `return -nil' runs an OP_UNM whose operand is a constant.
  lemma MinusNil(ops: Ops, upvals: int -> Value, r0: Regs)
    requires EntryRegs(r0, 0)
    ensures var x := EUnary(MinusOpr, ENil); var s := ReturnOne(ops, NewFunction(0), x);
            RunsTo(Machine(ops, upvals, s.k), s.code, Running(0, r0), Crashed)
  {
    var x, s0 := EUnary(MinusOpr, ENil), NewFunction(0);
    EndsLike(ops, upvals, x, r0);
    assert Gen(ops, s0, ENil) == (s0, Exp(VNil, [], []));
    FollowUnary(ops, upvals, s0, MinusOpr, ENil, r0);
    hide ReturnOne, RunsTo, Gen;
    assert Follow(ops, upvals, s0, ENil, r0, None) == Fell(Nil, None);
  }

  // ((1 or false) and true) or false
  const LEFT_OR: Expr := EBinary(OrOpr, ENum(1.0), EFalse)
  const MIDDLE_AND: Expr := EBinary(AndOpr, EParen(LEFT_OR), ETrue)
  const CONST_CONDITIONS: Expr := EBinary(OrOpr, EParen(MIDDLE_AND), EFalse)

  // The left operand leaves or goes on as its class says.
  lemma TurnByClass(ops: Ops, s: FS, y: Expr, cond: bool)
    requires Inv(s) && LocalsBelow(y, s.nactvar)
    ensures var (s1, e1) := Gen(ops, s, y); var a := ShapeOf(ops, y);
            NeverLeaves(e1.k, cond) == Never(a.k, cond) && AlwaysLeaves(e1.k, cond) == Always(a.k, cond) &&
            PlainTest(s1, e1) == (a.k.CComp? || a.k.CNot?) && !e1.k.VUpval? == !a.k.CUpval?
  {
    GenShape(ops, s, y);
    GenInv(ops, s, y);
    hide Gen, Frame, ListsInv;
  }

  lemma LeftPath(ops: Ops, upvals: int -> Value, r0: Regs)
    ensures Follow(ops, upvals, NewFunction(0), EParen(LEFT_OR), r0, None) == Left(true, Some(Num(1.0)))
  {
    hide Gen, Infix;
    TurnByClass(ops, NewFunction(0), ENum(1.0), true);
    FollowLogic(ops, upvals, NewFunction(0), OrOpr, ENum(1.0), EFalse, r0);
  }

  lemma MiddlePath(ops: Ops, upvals: int -> Value, r0: Regs)
    ensures Follow(ops, upvals, NewFunction(0), EParen(MIDDLE_AND), r0, None) == Fell(Bool(true), Some(Num(1.0)))
  {
    hide Gen, Infix;
    var s0 := NewFunction(0);
    LeftPath(ops, upvals, r0);
    FollowLogic(ops, upvals, s0, AndOpr, EParen(LEFT_OR), ETrue, r0);
    var (s1, e1) := Gen(ops, s0, EParen(LEFT_OR));
    LeftState(ops, s0, AndOpr, EParen(LEFT_OR));
    TurnByClass(ops, Infix(s1, AndOpr, e1).0, ETrue, true);
    TurnByClass(ops, s0, MIDDLE_AND, true);
  }

  lemma ConditionValues(ops: Ops, upvals: int -> Value, r0: Regs)
    ensures Eval(ops, upvals, EParen(MIDDLE_AND), r0) == Some(Bool(true))
    ensures Eval(ops, upvals, CONST_CONDITIONS, r0) == Some(Bool(true))
    ensures ShapeOf(ops, EParen(MIDDLE_AND)).k == CTrue
  {
    assert Eval(ops, upvals, LEFT_OR, r0) == Some(Num(1.0));
    assert Eval(ops, upvals, EParen(LEFT_OR), r0) == Some(Num(1.0));
    assert Eval(ops, upvals, MIDDLE_AND, r0) == Some(Bool(true));
    assert ShapeOf(ops, MIDDLE_AND).k == CTrue;
  }

  // `return ((1 or false) and true) or false' returns 1, not true: the jump out of the
  // innermost `or' comes to land on a constant true, whose jump it then follows.
  lemma ConstantConditions(ops: Ops, upvals: int -> Value, r0: Regs)
    requires EntryRegs(r0, 0)
    ensures var s := ReturnOne(ops, NewFunction(0), CONST_CONDITIONS); var m := Machine(ops, upvals, s.k);
            RunsTo(m, s.code, Running(0, r0), Returned([Num(1.0)])) &&
            Meaning(ops, upvals, CONST_CONDITIONS, r0) == Returned([Bool(true)])
  {
    hide ReturnOne, RunsTo, Gen, Infix, Follow, Eval, ShapeOf;
    EndsLike(ops, upvals, CONST_CONDITIONS, r0);
    MiddlePath(ops, upvals, r0);
    FollowLogic(ops, upvals, NewFunction(0), OrOpr, EParen(MIDDLE_AND), EFalse, r0);
    TurnByClass(ops, NewFunction(0), EParen(MIDDLE_AND), true);
    ConditionValues(ops, upvals, r0);
  }
}
