// The opcodes that expressions compile to and the machine that runs them.
//
// A jump whose offset is NO_JUMP is pending: the code generator has still to
// decide where it goes.  `Exec' runs a stretch of unfinished code and stops
// either at its end or at the first pending jump it would take; `Steps' is the
// interpreter itself.

module LuaVM {
  import opened LuaValue
  import opened Options

  const NO_JUMP: int := -1
  const NO_REG: int := 255

  // A B or C operand that is either a register or a constant.
  datatype RK = R(reg: int) | K(idx: int)

  datatype Instr =
    | OpMove(a: int, b: int)
    | OpLoadK(a: int, bx: int)
    | OpLoadBool(a: int, val: bool, skip: bool)
    | OpLoadNil(a: int, b: int)
    | OpGetUpval(a: int, b: int)
    | OpArith(op: ArithOp, a: int, rb: RK, rc: RK)
    | OpUnm(a: int, rb: RK)
    | OpBNot(a: int, rb: RK)
    | OpNot(a: int, b: int)
    | OpLen(a: int, b: int)
    | OpConcat(a: int, b: int, c: int)
    | OpJmp(sbx: int)
    | OpComp(cop: CompOp, cond: bool, rb: RK, rc: RK)
    | OpTest(a: int, cond: bool)
    | OpTestSet(a: int, b: int, cond: bool)
    | OpReturn(a: int, b: int)

  // The T mode bit: a test, always followed by the jump it controls.
  predicate IsTest(i: Instr) {
    i.OpComp? || i.OpTest? || i.OpTestSet?
  }

  // Instructions that compute one value into register A and fall through.
  predicate IsValueInstr(i: Instr) {
    i.OpMove? || i.OpLoadK? || (i.OpLoadBool? && !i.skip) || i.OpGetUpval? || i.OpArith? ||
    i.OpUnm? || i.OpBNot? || i.OpNot? || i.OpLen? || i.OpConcat?
  }

  function SetA(i: Instr, r: int): Instr
    requires IsValueInstr(i)
  {
    match i
    case OpMove(_, b) => OpMove(r, b)
    case OpLoadK(_, bx) => OpLoadK(r, bx)
    case OpLoadBool(_, v, skip) => OpLoadBool(r, v, skip)
    case OpGetUpval(_, b) => OpGetUpval(r, b)
    case OpArith(op, _, x, y) => OpArith(op, r, x, y)
    case OpUnm(_, x) => OpUnm(r, x)
    case OpBNot(_, x) => OpBNot(r, x)
    case OpNot(_, b) => OpNot(r, b)
    case OpLen(_, b) => OpLen(r, b)
    case OpConcat(_, b, c) => OpConcat(r, b, c)
  }

  datatype Machine = Machine(ops: Ops, upvals: int -> Value, k: seq<Value>)

  // Crash: an operand out of range, or a jump that leaves the code.
  datatype Res<T> = Ok(v: T) | Error | Crash

  function FromOption<T>(o: Option<T>): Res<T> {
    match o case Some(v) => Ok(v) case None => Error
  }

  function RKValue(m: Machine, x: RK, r: Regs): Res<Value> {
    match x
    case R(i) => Ok(Get(r, i))
    case K(i) => if 0 <= i < |m.k| then Ok(m.k[i]) else Crash
  }

  function ConcatRange(m: Machine, r: Regs, b: int, c: int): Res<Value>
    decreases c - b
  {
    if b >= c then Ok(Get(r, c))
    else
      var rest := ConcatRange(m, r, b + 1, c);
      if rest.Ok? then FromOption(m.ops.concat(Get(r, b), rest.v)) else rest
  }

  function ValueOf(m: Machine, i: Instr, r: Regs): Res<Value>
    requires IsValueInstr(i)
  {
    match i
    case OpMove(_, b) => Ok(Get(r, b))
    case OpLoadK(_, bx) => if 0 <= bx < |m.k| then Ok(m.k[bx]) else Crash
    case OpLoadBool(_, v, _) => Ok(Bool(v))
    case OpGetUpval(_, b) => Ok(m.upvals(b))
    case OpArith(op, _, x, y) =>
      var v, w := RKValue(m, x, r), RKValue(m, y, r);
      if v.Ok? && w.Ok? then FromOption(Arith(m.ops, op, v.v, w.v)) else Crash
    case OpUnm(_, x) => if x.R? then FromOption(Unm(m.ops, Get(r, x.reg))) else Crash
    case OpBNot(_, x) => if x.R? then Ok(Bool(IsFalse(Get(r, x.reg)))) else Crash
    case OpNot(_, b) => Ok(Bool(IsFalse(Get(r, b))))
    case OpLen(_, b) => FromOption(m.ops.len(Get(r, b)))
    case OpConcat(_, b, c) => ConcatRange(m, r, b,
                                          c)  // the source also overwrites registers b to c - 1, which are free
  }

  function SetNil(r: Regs, a: int, b: int): (r': Regs)
    ensures forall i {:trigger Get(r', i)} :: Get(r', i) == if a <= i <= b then Nil else Get(r, i)
    decreases b - a
  {
    if a > b then r else SetNil(r[b := Nil], a, b - 1)
  }

  // Whether a test takes the jump that follows it.
  function TakesJump(m: Machine, i: Instr, r: Regs): Res<bool>
    requires IsTest(i)
  {
    match i
    case OpComp(cop, cond, x, y) =>
      var v, w := RKValue(m, x, r), RKValue(m, y, r);
      if !(v.Ok? && w.Ok?) then Crash
      else
        var res := FromOption(m.ops.comp(cop, v.v, w.v));
        if res.Ok? then Ok(res.v == cond) else res
    case OpTest(a, c) => Ok(IsFalse(Get(r, a)) != c)
    case OpTestSet(_, b, c) => Ok(IsFalse(Get(r, b)) != c)
  }

  // What a test does to the registers when it takes its jump.
  function OnJump(i: Instr, r: Regs): Regs {
    if i.OpTestSet? then r[i.a := Get(r, i.b)] else r
  }

  predicate Pending(code: seq<Instr>, j: int) {
    0 <= j < |code| && code[j] == OpJmp(NO_JUMP)
  }

  function Target(code: seq<Instr>, j: int): int
    requires 0 <= j < |code| && code[j].OpJmp?
  {
    j + 1 + code[j].sbx
  }

  datatype Outcome =
    | Fall(r: Regs)          // reached the end of the stretch
    | Exit(j: int, r: Regs)  // about to take the pending jump j
    | Fail                   // run-time error
    | Broken                 // an operand out of range
    | Stuck                  // left the stretch

  datatype Move = Go(pc: int, r: Regs) | Stop(o: Outcome)

  // One instruction of unfinished code, at 0 <= pc < hi.
  function Next(m: Machine, code: seq<Instr>, hi: int, pc: int, r: Regs): Move
    requires 0 <= pc < hi <= |code|
  {
    var i := code[pc];
    if i.OpJmp? then
      if pc > 0 && IsTest(code[pc - 1]) then Stop(Stuck)  // only its test may take this jump
      else if i.sbx == NO_JUMP then Stop(Exit(pc, r))
      else Go(Target(code, pc), r)
    else if IsTest(i) then
      if !(pc + 1 < hi && code[pc + 1].OpJmp?) then Stop(Stuck)
      else match TakesJump(m, i, r)
        case Error => Stop(Fail)
        case Crash => Stop(Broken)
        case Ok(taken) =>
          if !taken then Go(pc + 2, r)
          else if code[pc + 1].sbx == NO_JUMP then Stop(Exit(pc + 1, r))
          else Go(Target(code, pc + 1), OnJump(i, r))
    else if i.OpLoadNil? then Go(pc + 1, SetNil(r, i.a, i.b))
    else if i.OpLoadBool? && i.skip then Go(pc + 2, r[i.a := Bool(i.val)])
    else if IsValueInstr(i) then
      match ValueOf(m, i, r)
      case Error => Stop(Fail)
      case Crash => Stop(Broken)
      case Ok(v) => Go(pc + 1, r[i.a := v])
    else Stop(Stuck)
  }

  // Runs code[pc..hi] forwards from `pc'.
  function Exec(m: Machine, code: seq<Instr>, hi: int, pc: int, r: Regs): Outcome
    requires hi <= |code|
    decreases hi - pc
  {
    if pc == hi then Fall(r)
    else if pc > hi || pc < 0 then Stuck
    else
      match Next(m, code, hi, pc, r)
      case Stop(o) => o
      case Go(pc', r') => if pc' > pc then Exec(m, code, hi, pc', r') else Stuck
  }

  // The interpreter, one instruction at a time.
  datatype Config =
    | Running(pc: int, r: Regs)
    | Returned(vs: seq<Value>)
    | Errored
    | Crashed

  function Step(m: Machine, code: seq<Instr>, c: Config): Config {
    if !c.Running? then c
    else if !(0 <= c.pc < |code|) then Crashed
    else
      var pc, r, i := c.pc, c.r, code[c.pc];
      if i.OpJmp? then Running(pc + 1 + i.sbx, r)
      else if IsTest(i) then
        match TakesJump(m, i, r)
        case Error => Errored
        case Crash => Crashed
        case Ok(taken) =>
          if !taken then Running(pc + 2, r)
          else if pc + 1 < |code| && code[pc + 1].OpJmp? then Running(Target(code, pc + 1), OnJump(i, r))
          else Crashed
      else if i.OpLoadNil? then Running(pc + 1, SetNil(r, i.a, i.b))
      else if i.OpLoadBool? && i.skip then Running(pc + 2, r[i.a := Bool(i.val)])
      else if i.OpReturn? then Returned(ReturnValues(r, i.a, i.b - 1))
      else
        match ValueOf(m, i, r)
        case Error => Errored
        case Crash => Crashed
        case Ok(v) => Running(pc + 1, r[i.a := v])
  }

  function ReturnValues(r: Regs, a: int, n: int): seq<Value>
    decreases n
  {
    if n <= 0 then [] else [Get(r, a)] + ReturnValues(r, a + 1, n - 1)
  }

  function Steps(m: Machine, code: seq<Instr>, c: Config, n: nat): Config
    decreases n
  {
    if n == 0 then c else Steps(m, code, Step(m, code, c), n - 1)
  }

  lemma NextIsAStep(m: Machine, code: seq<Instr>, hi: int, pc: int, r: Regs)
    requires 0 <= pc < hi <= |code|
    ensures var x := Next(m, code, hi, pc, r); var c := Step(m, code, Running(pc, r));
            (x.Go? ==> c == Running(x.pc, x.r)) && (x == Stop(Fail) ==> c == Errored) &&
            (x == Stop(Broken) ==> c == Crashed)
  {
  }

  // The whole run: Exec says where the interpreter gets to.
  lemma {:induction false} ExecIsARun(m: Machine, code: seq<Instr>, hi: int, pc: int, r: Regs) returns (n: nat)
    requires hi <= |code|
    ensures var o := Exec(m, code, hi, pc, r);
            (o.Fall? ==> Steps(m, code, Running(pc, r), n) == Running(hi, o.r)) &&
            (o.Fail? ==> Steps(m, code, Running(pc, r), n) == Errored) &&
            (o.Broken? ==> Steps(m, code, Running(pc, r), n) == Crashed)
    decreases hi - pc
  {
    n := 0;
    if 0 <= pc < hi {
      NextIsAStep(m, code, hi, pc, r);
      var x := Next(m, code, hi, pc, r);
      var c := Step(m, code, Running(pc, r));
      hide Next, Step;
      if x.Go? && x.pc > pc {
        n := ExecIsARun(m, code, hi, x.pc, x.r);
      }
      n := n + 1;
      assert Steps(m, code, Running(pc, r), n) == Steps(m, code, c, n - 1);
    }
  }

  // Exec reads no further than the end of its stretch.
  lemma {:induction false} ExecSame(m: Machine, code: seq<Instr>, code': seq<Instr>, hi: int, pc: int, r: Regs)
    requires hi <= |code| && hi <= |code'|
    requires forall i :: 0 <= i < hi ==> code[i] == code'[i]
    ensures Exec(m, code, hi, pc, r) == Exec(m, code', hi, pc, r)
    decreases hi - pc
  {
    if 0 <= pc < hi {
      var x := Next(m, code, hi, pc, r);
      assert x == Next(m, code', hi, pc, r);
      if x.Go? && x.pc > pc {
        ExecSame(m, code, code', hi, x.pc, x.r);
      }
    }
  }

  // A longer stretch first does what the shorter one does.
  lemma {:induction false} ExecSplit(m: Machine, code: seq<Instr>, mid: int, hi: int, pc: int, r: Regs)
    requires mid <= hi <= |code|
    ensures var o := Exec(m, code, mid, pc, r);
            o.Stuck? || Exec(m, code, hi, pc, r) == (if o.Fall? then Exec(m, code, hi, mid, o.r) else o)
    decreases mid - pc
  {
    if 0 <= pc < mid {
      var x := Next(m, code, mid, pc, r);
      assert x == Stop(Stuck) || x == Next(m, code, hi, pc, r);
      if x.Go? && x.pc > pc {
        ExecSplit(m, code, mid, hi, x.pc, x.r);
      }
    }
  }
}
