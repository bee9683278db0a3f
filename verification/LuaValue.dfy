// Values, the primitive operations on them, expression trees and what they mean.

module LuaValue {
  import opened Options

  datatype Value =
    | Nil
    | Bool(b: bool)
    | Num(n: real)
    | Str(s: string)
    | Ref(id: int)  // a table, function, userdata or thread

  predicate IsFalse(v: Value) {
    v == Nil || v == Bool(false)
  }

  // Operators of the virtual machine that take two numbers.
  datatype ArithOp = ADD | SUB | MUL | DIV | MOD | POW | BOR | BAND | BXOR | BLSHFT | BRSHFT

  predicate IsBitwise(op: ArithOp) {
    op in {BOR, BAND, BXOR, BLSHFT, BRSHFT}
  }

  datatype CompOp = EQ | LT | LE

  // The primitive operations are a parameter: the results below hold for every
  // choice of number arithmetic (NaN included), coercion and metamethod.  None
  // stands for a run-time error.
  datatype Ops = Ops(
    arith: (ArithOp, real, real) -> real,
    unm: real -> real,
    isNaN: real -> bool,
    arithEvent: (ArithOp, Value, Value) -> Option<Value>,
    unmEvent: Value -> Option<Value>,
    len: Value -> Option<Value>,
    concat: (Value, Value) -> Option<Value>,
    comp: (CompOp, Value, Value) -> Option<bool>)

  function Arith(ops: Ops, op: ArithOp, x: Value, y: Value): Option<Value> {
    if x.Num? && y.Num? then Some(Num(ops.arith(op, x.n, y.n))) else ops.arithEvent(op, x, y)
  }

  function Unm(ops: Ops, x: Value): Option<Value> {
    if x.Num? then Some(Num(ops.unm(x.n))) else ops.unmEvent(x)
  }

  // Registers of a frame; a register never written holds nil.
  type Regs = map<int, Value>

  function Get(r: Regs, i: int): Value {
    if i in r then r[i] else Nil
  }

  // Relational operators of the source language.
  datatype Relation = NE | EQUAL | LESS | LESSEQ | GREATER | GREATEREQ

  datatype BinOpr =
    | ArithOpr(op: ArithOp)
    | ConcatOpr
    | CompOpr(rel: Relation)
    | AndOpr | OrOpr

  datatype UnOpr = BNotOpr | MinusOpr | NotOpr | LenOpr

  datatype Expr =
    | ENil | ETrue | EFalse
    | ENum(n: real)
    | EStr(s: string)
    | ELocal(reg: nat)
    | EUpval(idx: nat)
    | EParen(e: Expr)
    | EUnary(uop: UnOpr, e: Expr)
    | EBinary(bop: BinOpr, l: Expr, r: Expr)

  function EvalComp(ops: Ops, rel: Relation, x: Value, y: Value): Option<Value> {
    var b := match rel
      case NE => ops.comp(EQ, x, y)
      case EQUAL => ops.comp(EQ, x, y)
      case LESS => ops.comp(LT, x, y)
      case LESSEQ => ops.comp(LE, x, y)
      case GREATER => ops.comp(LT, y, x)
      case GREATEREQ => ops.comp(LE, y, x);
    if b.None? then None else Some(Bool(if rel.NE? then !b.value else b.value))
  }

  function EvalUnary(ops: Ops, uop: UnOpr, x: Value): Option<Value> {
    match uop
    case BNotOpr => Some(Bool(IsFalse(x)))
    case NotOpr => Some(Bool(IsFalse(x)))
    case MinusOpr => Unm(ops, x)
    case LenOpr => ops.len(x)
  }

  // What an expression means in the reference manual: operands left to right,
  // `and' and `or' evaluating their second operand only when needed.
  function Eval(ops: Ops, upvals: int -> Value, x: Expr, r: Regs): Option<Value> {
    match x
    case ENil => Some(Nil)
    case ETrue => Some(Bool(true))
    case EFalse => Some(Bool(false))
    case ENum(n) => Some(Num(n))
    case EStr(s) => Some(Str(s))
    case ELocal(i) => Some(Get(r, i))
    case EUpval(i) => Some(upvals(i))
    case EParen(e) => Eval(ops, upvals, e, r)
    case EUnary(uop, e) =>
      var v := Eval(ops, upvals, e, r);
      if v.None? then None else EvalUnary(ops, uop, v.value)
    case EBinary(bop, a, b) =>
      var v := Eval(ops, upvals, a, r);
      if v.None? then None
      else if bop.AndOpr? then (if IsFalse(v.value) then v else Eval(ops, upvals, b, r))
      else if bop.OrOpr? then (if IsFalse(v.value) then Eval(ops, upvals, b, r) else v)
      else
        var w := Eval(ops, upvals, b, r);
        if w.None? then None
        else if bop.ArithOpr? then Arith(ops, bop.op, v.value, w.value)
        else if bop.ConcatOpr? then ops.concat(v.value, w.value)
        else EvalComp(ops, bop.rel, v.value, w.value)
  }

  // Which primitive each operator is, and the order of its operands.
  lemma OperatorsMean(ops: Ops, upvals: int -> Value, r: Regs, i: nat, j: nat, op: ArithOp)
    ensures var x, y, v, w := ELocal(i), ELocal(j), Get(r, i), Get(r, j);
            && Eval(ops, upvals, EBinary(ArithOpr(op), x, y), r) ==
               (if v.Num? && w.Num? then Some(Num(ops.arith(op, v.n, w.n))) else ops.arithEvent(op, v, w))
            && Eval(ops, upvals, EBinary(ConcatOpr, x, y), r) == ops.concat(v, w)
            && Eval(ops, upvals, EBinary(CompOpr(EQUAL), x, y), r) == Truth(ops.comp(EQ, v, w), true)
            && Eval(ops, upvals, EBinary(CompOpr(NE), x, y), r) == Truth(ops.comp(EQ, v, w), false)
            && Eval(ops, upvals, EBinary(CompOpr(LESS), x, y), r) == Truth(ops.comp(LT, v, w), true)
            && Eval(ops, upvals, EBinary(CompOpr(LESSEQ), x, y), r) == Truth(ops.comp(LE, v, w), true)
            && Eval(ops, upvals, EBinary(CompOpr(GREATER), x, y), r) == Truth(ops.comp(LT, w, v), true)
            && Eval(ops, upvals, EBinary(CompOpr(GREATEREQ), x, y), r) == Truth(ops.comp(LE, w, v), true)
  {
    TwoLocals(ops, upvals, r, i, j);
    hide Get;
  }

  lemma TwoLocals(ops: Ops, upvals: int -> Value, r: Regs, i: nat, j: nat)
    ensures Eval(ops, upvals, ELocal(i), r) == Some(Get(r, i)) && Eval(ops, upvals, ELocal(j), r) == Some(Get(r, j))
  {
  }

  lemma TruthsMean(ops: Ops, upvals: int -> Value, r: Regs, i: nat, j: nat)
    ensures var x, y, v, w := ELocal(i), ELocal(j), Get(r, i), Get(r, j);
            && Eval(ops, upvals, EBinary(AndOpr, x, y), r) == Some(if v in {Nil, Bool(false)} then v else w)
            && Eval(ops, upvals, EBinary(OrOpr, x, y), r) == Some(if v in {Nil, Bool(false)} then w else v)
            && Eval(ops, upvals, EUnary(NotOpr, x), r) == Some(Bool(v in {Nil, Bool(false)}))
            && Eval(ops, upvals, EUnary(BNotOpr, x), r) == Some(Bool(v in {Nil, Bool(false)}))
            && Eval(ops, upvals, EUnary(LenOpr, x), r) == ops.len(v)
            && Eval(ops, upvals, EUnary(MinusOpr, x), r) ==
               (if v.Num? then Some(Num(ops.unm(v.n))) else ops.unmEvent(v))
  {
    TwoLocals(ops, upvals, r, i, j);
    hide Get;
  }

  function Truth(b: Option<bool>, yes: bool): Option<Value> {
    match b
    case Some(t) => Some(Bool(t == yes))
    case None => None
  }

  // Every local the expression names is below `nactvar'.
  predicate LocalsBelow(x: Expr, nactvar: int) {
    match x
    case ELocal(i) => i < nactvar
    case EParen(e) => LocalsBelow(e, nactvar)
    case EUnary(_, e) => LocalsBelow(e, nactvar)
    case EBinary(_, a, b) => LocalsBelow(a, nactvar) && LocalsBelow(b, nactvar)
    case _ => true
  }

  ghost predicate Agree(r: Regs, r': Regs, n: int) {
    forall i {:trigger Get(r, i)} {:trigger Get(r', i)} :: 0 <= i < n ==> Get(r, i) == Get(r', i)
  }
}
