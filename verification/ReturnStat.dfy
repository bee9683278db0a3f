// `return expression': the code of the statement, and what running it does.

module ReturnStat {
  import opened LuaValue
  import opened LuaVM
  import opened CodeGen
  import opened CodeGenInv
  import opened CodeMeaning
  import opened CodeGenSound
  import opened JumpLists
  import opened FuncStates
  import opened Precedence
  import opened ExprParsers
  import opened Options

  // retstat, for one expression that is not a call
  function ReturnOne(ops: Ops, s0: FS, x: Expr): FS {
    var (s1, e1) := Gen(ops, s0, x);
    var (s2, e2) := CodeGen.Exp2AnyReg(s1, e1);
    CodeGen.Emit(s2, OpReturn(RegOf(e2), 2))
  }

  ghost predicate RunsTo(m: Machine, code: seq<Instr>, c: Config, c': Config) {
    exists n: nat :: Steps(m, code, c, n) == c'
  }

  // What the source says the statement does.
  function Meaning(ops: Ops, upvals: int -> Value, x: Expr, r: Regs): Config {
    var v := Eval(ops, upvals, x, r);
    if v.Some? then Returned([v.value]) else Errored
  }

  function Shown(p: Path): Config {
    match p
    case Failed => Errored
    case Broke => Crashed
    case _ => Returned([Delivered(p)])
  }

  // What the code of the statement does.
  function CodeOutcome(ops: Ops, upvals: int -> Value, s0: FS, x: Expr, r: Regs): Config {
    Shown(Follow(ops, upvals, s0, x, r, None))
  }

  predicate Final(c: Config) {
    !c.Running?
  }

  lemma {:induction false} FinalStays(m: Machine, code: seq<Instr>, c: Config, n: nat)
    requires Final(c)
    ensures Steps(m, code, c, n) == c
    decreases n
  {
    if n > 0 { FinalStays(m, code, c, n - 1); }
  }

  lemma {:induction false} StepsFurther(m: Machine, code: seq<Instr>, c: Config, n: nat, k: nat)
    ensures Steps(m, code, c, n + k) == Steps(m, code, Steps(m, code, c, n), k)
    decreases n
  {
    if n > 0 { StepsFurther(m, code, Step(m, code, c), n - 1, k); }
  }

  // A run ends in one way only.
  lemma OneEnd(m: Machine, code: seq<Instr>, c: Config, c1: Config, c2: Config)
    requires RunsTo(m, code, c, c1) && RunsTo(m, code, c, c2) && Final(c1) && Final(c2)
    ensures c1 == c2
  {
    var n1: nat :| Steps(m, code, c, n1) == c1;
    var n2: nat :| Steps(m, code, c, n2) == c2;
    if n1 <= n2 {
      StepsFurther(m, code, c, n1, n2 - n1);
      FinalStays(m, code, c1, n2 - n1);
    } else {
      StepsFurther(m, code, c, n2, n1 - n2);
      FinalStays(m, code, c2, n1 - n2);
    }
  }

  // open_func: the state of a new function with its parameters active
  function NewFunction(nparams: nat): FS {
    FS([], [], -1, [], nparams, nparams, if nparams < 2 then 2 else nparams, false)
  }

  // On entry only the parameters hold a value.
  ghost predicate EntryRegs(r: Regs, nparams: int) {
    forall i {:trigger Get(r, i)} :: i >= nparams ==> Get(r, i) == Nil
  }

  // An expression in the next free register: the run gets past its code with the value
  // there, and with every register below as it was.
  lemma NextRegHolds(m: Machine, s: FS, x: Expr, lo: int, r0: Regs)
    requires Inv(s) && LocalsBelow(x, s.nactvar) && Start(s, lo, r0) && Reach(m, s, lo, r0).Fall?
    requires Fits(m, CodeGen.Exp2NextReg(Gen(m.ops, s, x).0, Gen(m.ops, s, x).1).0)
    ensures var (s1, e1) := Gen(m.ops, s, x); var s2 := CodeGen.Exp2NextReg(s1, e1).0;
            var r := Reach(m, s, lo, r0).r;
            var p := Follow(m.ops, m.upvals, s, x, r, Arrived(m, s, lo, r0));
            var o := Reach(m, s2, lo, r0);
            match p
            case Failed => o.Fail?
            case Broke => o.Broken?
            case _ => o.Fall? && Get(o.r, s.freereg) == Delivered(p) && Agree(r, o.r, s.freereg)
  {
    hide Inv, ExpInv, Start, Gen, CodeGen.Exp2NextReg, Means, Arrives, Follow, Arrived, Exec;
    GenInv(m.ops, s, x);
    var (s1, e1) := Gen(m.ops, s, x);
    var f0, q := s.freereg, Reach(m, s, lo, r0);
    SteppedParts(s, s1, e1, f0);
    Exp2NextRegInv(s1, e1, f0);
    var (s2, e2) := CodeGen.Exp2NextReg(s1, e1);
    FitsBefore(m, s1, s2);
    GenSound(m, s, x, lo, r0);
    GenStart(m.ops, s, x, lo, r0);
    var w := Lift(Follow(m.ops, m.upvals, s, x, q.r, Arrived(m, s, lo, r0)), q);
    Exp2NextRegSound(m, s1, e1, f0, lo, r0, w);
    InRegister(m, s2, e2, f0, lo, r0, w);
  }

  // A value in a register, with no jumps out, has been reached.
  lemma InRegister(m: Machine, s: FS, e: Exp, f0: int, lo: int, r0: Regs, w: Want)
    requires Means(m, s, e, f0, lo, r0, w) && e.k.VNonreloc? && !HasJumps(e)
    ensures var o := Reach(m, s, lo, r0);
            match w
            case Val(v, r) => o.Fall? && Get(o.r, e.k.reg) == v && Agree(r, o.r, f0)
            case Err => o.Fail?
            case Bad => o.Broken?
            case Away(_, _) => true
  {
    hide Exec;
  }

  lemma GenStart(ops: Ops, s: FS, x: Expr, lo: int, r0: Regs)
    requires Inv(s) && LocalsBelow(x, s.nactvar) && Start(s, lo, r0)
    ensures Start(Gen(ops, s, x).0, lo, r0)
  {
    hide Start, Gen;
    GenInv(ops, s, x);
    StartKept(s, Gen(ops, s, x).0, lo, r0);
  }

  // The finished function returns what the path of the expression delivers.
  lemma ReturnSound(m: Machine, s0: FS, x: Expr, r0: Regs)
    requires s0.code == [] && s0.jpc == [] && Inv(s0) && LocalsBelow(x, s0.nactvar) && EntryRegs(r0, s0.nactvar)
    requires Fits(m, ReturnOne(m.ops, s0, x))
    ensures var s := ReturnOne(m.ops, s0, x); var n := |s.code| - 1;
            n >= 0 && s.code[n].OpReturn? &&
            var o := Exec(m, s.code, n, 0, r0);
            var p := Follow(m.ops, m.upvals, s0, x, r0, None);
            match p
            case Failed => o.Fail?
            case Broke => o.Broken?
            case _ => o.Fall? && ReturnValues(o.r, s.code[n].a, s.code[n].b - 1) == [Delivered(p)]
  {
    hide Inv, ExpInv, Gen, CodeGen.Exp2AnyReg, Means, Arrives, Follow, CodeGen.Emit, Exec;
    GenInv(m.ops, s0, x);
    var (s1, e1) := Gen(m.ops, s0, x);
    var f0 := s0.freereg;
    SteppedParts(s0, s1, e1, f0);
    Exp2AnyRegInv(s1, e1, f0);
    var (s2, e2) := CodeGen.Exp2AnyReg(s1, e1);
    var i := OpReturn(RegOf(e2), 2);
    Finished(m, s1, s2, i);
    AtEntry(m, s0, r0);
    GenSound(m, s0, x, 0, r0);
    GenStart(m.ops, s0, x, 0, r0);
    var w := Lift(Follow(m.ops, m.upvals, s0, x, r0, None), Fall(r0));
    Exp2AnyRegSound(m, s1, e1, f0, 0, r0, w);
    InRegister(m, s2, e2, f0, 0, r0, w);
    EmitExec(m, s2, i, 0, r0);
  }

  lemma Finished(m: Machine, s1: FS, s2: FS, i: Instr)
    requires Inv(s2) && Grows(s1, s2)
    ensures var s := CodeGen.Emit(s2, i);
            |s.code| == |s2.code| + 1 && s.code[|s2.code|] == i && (Fits(m, s) ==> Fits(m, s1) && Fits(m, s2))
  {
    EmitShape(s2, i);
  }

  lemma AtEntry(m: Machine, s: FS, r0: Regs)
    requires s.code == [] && s.jpc == [] && EntryRegs(r0, s.nactvar)
    ensures Reach(m, s, 0, r0) == Fall(r0) && Start(s, 0, r0) && Arrived(m, s, 0, r0) == None
  {
  }

  // ----- the object's own code -----

  // A run that ends without leaving by a pending jump never looks at its offset.
  lemma {:induction false} SameRun(m: Machine, mcode: seq<Instr>, code: seq<Instr>, hi: int, pc: int, r: Regs)
    requires Matches(code, mcode) && hi <= |mcode|
    requires var o := Exec(m, mcode, hi, pc, r); o.Fall? || o.Fail? || o.Broken?
    ensures Exec(m, code, hi, pc, r) == Exec(m, mcode, hi, pc, r)
    decreases hi - pc
  {
    if 0 <= pc < hi {
      SameNext(m, mcode, code, hi, pc, r);
      var x := Next(m, mcode, hi, pc, r);
      hide Next, Matches;
      if x.Go? && x.pc > pc {
        SameRun(m, mcode, code, hi, x.pc, x.r);
      }
    }
  }

  lemma SameNext(m: Machine, mcode: seq<Instr>, code: seq<Instr>, hi: int, pc: int, r: Regs)
    requires Matches(code, mcode) && 0 <= pc < hi <= |mcode|
    ensures var x := Next(m, mcode, hi, pc, r); (x.Stop? && x.o.Exit?) || x == Next(m, code, hi, pc, r)
  {
  }

  // A run of a stretch of code, then the return after it.
  lemma ReturnRuns(m: Machine, code: seq<Instr>, r0: Regs)
    requires |code| > 0 && code[|code| - 1].OpReturn?
    ensures var n := |code| - 1; var o := Exec(m, code, n, 0, r0);
            (o.Fall? ==> RunsTo(m, code, Running(0, r0), Returned(ReturnValues(o.r, code[n].a, code[n].b - 1)))) &&
            (o.Fail? ==> RunsTo(m, code, Running(0, r0), Errored)) &&
            (o.Broken? ==> RunsTo(m, code, Running(0, r0), Crashed))
  {
    var hi := |code| - 1;
    var n := ExecIsARun(m, code, hi, 0, r0);
    var o := Exec(m, code, hi, 0, r0);
    if o.Fall? {
      StepsThen(m, code, Running(0, r0), n);
      assert Steps(m, code, Running(0, r0), n + 1) == Returned(ReturnValues(o.r, code[hi].a, code[hi].b - 1));
    } else if o.Fail? {
      assert Steps(m, code, Running(0, r0), n) == Errored;
    } else if o.Broken? {
      assert Steps(m, code, Running(0, r0), n) == Crashed;
    }
  }

  lemma {:induction false} StepsThen(m: Machine, code: seq<Instr>, c: Config, n: nat)
    ensures Steps(m, code, c, n + 1) == Step(m, code, Steps(m, code, c, n))
    decreases n
  {
    if n > 0 {
      StepsThen(m, code, Step(m, code, c), n - 1);
    }
  }

  lemma FinishedRuns(m: Machine, m0: FS, code: seq<Instr>, x: Expr, r0: Regs)
    requires m0.code == [] && m0.jpc == [] && Inv(m0) && LocalsBelow(x, m0.nactvar) && EntryRegs(r0, m0.nactvar)
    requires var s := ReturnOne(m.ops, m0, x); Matches(code, s.code) && m.k == s.k && !s.overflow
    ensures var c := CodeOutcome(m.ops, m.upvals, m0, x, r0); var c' := Meaning(m.ops, m.upvals, x, r0);
            RunsTo(m, code, Running(0, r0), c) && (RunsTo(m, code, Running(0, r0), c') <==> c == c')
  {
    hide Inv, Gen, ReturnOne, RunsTo, Exec, Follow;
    ReturnSound(m, m0, x, r0);
    var s := ReturnOne(m.ops, m0, x);
    SameRun(m, s.code, code, |s.code| - 1, 0, r0);
    assert code[|s.code| - 1] == s.code[|s.code| - 1];
    ReturnRuns(m, code, r0);
    var c, c' := CodeOutcome(m.ops, m.upvals, m0, x, r0), Meaning(m.ops, m.upvals, x, r0);
    if RunsTo(m, code, Running(0, r0), c') { OneEnd(m, code, Running(0, r0), c, c'); }
  }
}
