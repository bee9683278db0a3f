// What the generated code does, expression by expression, as a function of the tree.
//
// It is what the expression means, except in two places: `-' and `!' on a constant, and
// an `and' or `or' whose left operand is a constant on which jumps out of an earlier
// operand land.  Those jumps carry a value, and go on to deliver it.

module CodeMeaning {
  import opened LuaValue
  import opened LuaVM
  import opened CodeGen
  import opened Options

  // How the code of an expression ends: past its last instruction, with value v; by one
  // of its own jumps, as true or as false; by an error; by a broken instruction.  What
  // the jump taken last carries, if it carries a value and no code has run since, is c.
  datatype Path =
    | Fell(v: Value, c: Option<Value>)
    | Left(truth: bool, c: Option<Value>)
    | Failed
    | Broke

  predicate Ends(p: Path) {
    p.Fell? || p.Left?
  }

  // The value that ends up in a register.
  function Delivered(p: Path): Value {
    match p
    case Fell(v, _) => v
    case Left(t, c) => if c.Some? then c.value else Bool(t)
    case _ => Nil
  }

  function Computed(v: Option<Value>): Path {
    if v.Some? then Fell(v.value, None) else Failed
  }

  // `-' and `!' take their operand from the constant table.
  predicate ConstantOperand(s: FS, e: Exp) {
    !HasJumps(e) && IsConst(e.k) && |s.k| <= MAXINDEXRK
  }

  predicate NoCode(k: Kind) {
    IsConst(k) || k.VK?
  }

  function UnaryPath(ops: Ops, op: UnOpr, s: FS, e: Exp, p: Path): Path {
    if !Ends(p) then p
    else match op
      case NotOpr => if p.Fell? then Fell(Bool(IsFalse(p.v)), if NoCode(e.k) then p.c else None)
                     else Left(!p.truth, None)
      case LenOpr => Computed(ops.len(Delivered(p)))
      case MinusOpr =>
        if IsNumeral(e) && !ops.isNaN(ops.unm(e.k.nval)) then Fell(Num(ops.unm(e.k.nval)), p.c)
        else if ConstantOperand(s, e) then Broke
        else Computed(Unm(ops, Delivered(p)))
      case BNotOpr =>
        if IsNumeral(e) then Fell(Num(0.0), p.c)
        else if ConstantOperand(s, e) then Broke
        else Fell(Bool(IsFalse(Delivered(p))), None)
  }

  // After the left operand of `and' (cond false) or `or' (cond true).
  datatype Turn = Stays(p: Path) | GoesOn(c: Option<Value>)

  predicate NeverLeaves(k: Kind, cond: bool) {
    if cond then k.VNil? || k.VFalse? else k.VK? || k.VKNum? || k.VTrue?
  }

  predicate AlwaysLeaves(k: Kind, cond: bool) {
    if cond then k.VTrue? else k.VFalse?
  }

  // The jump is controlled by a comparison, or by a test of what `not' was applied to.
  predicate PlainTest(s: FS, e: Exp) {
    e.k.VJmp? || (e.k.VReloc? && 0 <= e.k.pc < |s.code| && s.code[e.k.pc].OpNot?)
  }

  function TurnOf(s: FS, e: Exp, cond: bool, p: Path): Turn {
    match p
    case Left(t, c) => if t == cond then Stays(p) else GoesOn(c)
    case Fell(v, c) =>
      if NeverLeaves(e.k, cond) then GoesOn(c)
      else if AlwaysLeaves(e.k, cond) then Stays(Left(cond, c))
      else if IsFalse(v) == cond then GoesOn(None)
      else Stays(Left(cond, if PlainTest(s, e) then None else Some(v)))
    case _ => Stays(p)
  }

  // Loading an upvalue is code, which no jump can have skipped.
  function Loaded(e: Exp, p: Path): Path {
    if e.k.VUpval? && p.Fell? then Fell(p.v, None) else p
  }

  // The left operand of an operator other than `and' and `or' took no code.
  predicate Quiet(s: FS, op: BinOpr, e: Exp) {
    !HasJumps(e) && Infix(s, op, e).0.code == s.code
  }

  predicate Folds(ops: Ops, op: BinOpr, e1: Exp, e2: Exp) {
    op.ArithOpr? && ConstFolding(ops, op.op, e1, e2).Some?
  }

  function Operate(ops: Ops, op: BinOpr, v: Value, w: Value): Option<Value>
    requires !op.AndOpr? && !op.OrOpr?
  {
    match op
    case ArithOpr(aop) => Arith(ops, aop, v, w)
    case ConcatOpr => ops.concat(v, w)
    case CompOpr(rel) => EvalComp(ops, rel, v, w)
  }

  // The code generated for x in state s, run with registers r after a jump carrying c,
  // or after none.
  function Follow(ops: Ops, upvals: int -> Value, s: FS, x: Expr, r: Regs, c: Option<Value>): Path
    decreases x
  {
    match x
    case ENil => Fell(Nil, c)
    case ETrue => Fell(Bool(true), c)
    case EFalse => Fell(Bool(false), c)
    case ENum(n) => Fell(Num(n), c)
    case EStr(str) => Fell(Str(str), c)
    case ELocal(i) => Fell(Get(r, i), c)
    case EUpval(i) => Fell(upvals(i), c)
    case EParen(y) => Loaded(Gen(ops, s, y).1, Follow(ops, upvals, s, y, r, c))
    case EUnary(op, y) =>
      var (s1, e) := Gen(ops, s, y);
      UnaryPath(ops, op, s1, e, Follow(ops, upvals, s, y, r, c))
    case EBinary(op, y, z) =>
      var p1 := Follow(ops, upvals, s, y, r, c);
      var (s1, e1) := Gen(ops, s, y);
      var (s2, e1') := Infix(s1, op, e1);
      var e2 := Gen(ops, s2, z).1;
      if op.AndOpr? || op.OrOpr? then
        var t := TurnOf(s1, e1, op.OrOpr?, p1);
        if t.Stays? then t.p else Loaded(e2, Follow(ops, upvals, s2, z, r, t.c))
      else if !Ends(p1) then p1
      else
        var p2 := Follow(ops, upvals, s2, z, r, if Quiet(s1, op, e1) then p1.c else None);
        if !Ends(p2) then p2
        else if Folds(ops, op, e1', e2) then Fell(Num(ConstFolding(ops, op.op, e1', e2).value), p2.c)
        else Computed(Operate(ops, op, Delivered(p1), Delivered(p2)))
  }

  // The code reads only the registers of active locals.
  lemma FollowAgree(ops: Ops, upvals: int -> Value, s: FS, x: Expr, r: Regs, r': Regs, c: Option<Value>, n: int)
    requires LocalsBelow(x, n) && Agree(r, r', n)
    ensures Follow(ops, upvals, s, x, r, c) == Follow(ops, upvals, s, x, r', c)
    decreases x
  {
    hide Gen, Infix, UnaryPath, TurnOf, Quiet, Folds;
    match x {
      case EParen(y) => FollowAgree(ops, upvals, s, y, r, r', c, n);
      case EUnary(op, y) => FollowAgree(ops, upvals, s, y, r, r', c, n);
      case EBinary(op, y, z) =>
        FollowAgree(ops, upvals, s, y, r, r', c, n);
        var p1 := Follow(ops, upvals, s, y, r, c);
        var (s1, e1) := Gen(ops, s, y);
        var s2 := Infix(s1, op, e1).0;
        var t := TurnOf(s1, e1, op.OrOpr?, p1);
        if t.GoesOn? { FollowAgree(ops, upvals, s2, z, r, r', t.c, n); }
        if Ends(p1) { FollowAgree(ops, upvals, s2, z, r, r', if Quiet(s1, op, e1) then p1.c else None, n); }
      case _ =>
    }
  }
}
