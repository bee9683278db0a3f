// `return expression': from tokens to a finished function, and what running it does.

module ReturnCompiler {
  import opened LuaValue
  import opened LuaVM
  import opened CodeGen
  import opened CodeGenInv
  import opened CodeMeaning
  import opened JumpLists
  import opened FuncStates
  import opened Precedence
  import opened ExprParsers
  import opened CodeGenFits
  import opened CodeRight
  import opened ReturnStat
  import opened Options

  // Compiles `return' and an expression.  Unless the text is not an expression that ends
  // there or nests too deep, the function has the tree that the priorities give the text,
  // and for every choice of primitive operations, upvalues and arguments it does what the
  // path of that tree says.  So it does what the source says exactly when the two are the
  // same, and always for a fine tree that fits.
  method CompileReturn(ops: Ops, p: Priorities, toks: seq<Token>, nparams: nat, nCcalls: int)
    returns (ok: bool, fs: FuncState, ghost x: Expr)
    requires nparams <= 200 && LocalsNamed(toks, nparams)
    ensures fresh(fs)
    ensures ok <==> SubExpr(p, toks, 0, 0, LUAI_MAXCCALLS - nCcalls) == Tree(x, |toks|)
    ensures ok ==> Yield(x) == toks && Respects(p, x) && Nest(x) < LUAI_MAXCCALLS - nCcalls
    ensures ok ==> fs.model == ReturnOne(ops, NewFunction(nparams), x)
    ensures ok && !fs.overflow ==>
              forall upvals: int -> Value, r0: Regs {:trigger Meaning(ops, upvals, x, r0)} :: EntryRegs(r0, nparams) ==>
                var m := Machine(ops, upvals, fs.k);
                var c := CodeOutcome(ops, upvals, NewFunction(nparams), x, r0);
                RunsTo(m, fs.code, Running(0, r0), c) &&
                (RunsTo(m, fs.code, Running(0, r0), Meaning(ops, upvals, x, r0)) <==> c == Meaning(ops, upvals, x, r0))
    ensures ok && Fine(ops, x, Nothing) && nparams + Need(x) < MAXSTACK ==>
              !fs.overflow &&
              forall upvals: int -> Value, r0: Regs {:trigger Meaning(ops, upvals, x, r0)} :: EntryRegs(r0, nparams) ==>
                RunsTo(Machine(ops, upvals, fs.k), fs.code, Running(0, r0), Meaning(ops, upvals, x, r0))
  {
    hide Inv, ExpInv, Stepped, Frame, Gen, CodeGen.Exp2AnyReg, CodeGen.Emit, SubExpr, LinksKept, Matches, Threads,
      Respects, LocalsNamed, RunsTo, Follow, Fresh, KindInv, Yield, TestsPaired, Delivered;
    fs := new FuncState(ops, nparams);
    var parser := new Parser(p, toks, fs, nCcalls);
    ghost var m0 := fs.model;
    var e;
    ghost var a;
    ok, e, x, a := parser.Subexpr(0);
    if !ok || parser.pos != |toks| {
      ok := false;
      return;
    }
    WholeText(p, toks, x, LUAI_MAXCCALLS - nCcalls);
    GenInv(ops, m0, x);
    ghost var m1 := fs.model;
    SteppedParts(m0, m1, a, nparams);
    Exp2AnyRegInv(m1, a, nparams);
    e, a := fs.Exp2AnyReg(e, a, nparams);
    ghost var m2 := fs.model;
    InvParts(m2);
    var i := OpReturn(e.k.reg, 2);
    var pc := fs.Emit(i);
    if !fs.overflow {
      forall upvals: int -> Value, r0: Regs | EntryRegs(r0, nparams)
        ensures var m := Machine(ops, upvals, fs.k);
                var c := CodeOutcome(ops, upvals, NewFunction(nparams), x, r0);
                RunsTo(m, fs.code, Running(0, r0), c) &&
                (RunsTo(m, fs.code, Running(0, r0), Meaning(ops, upvals, x, r0)) <==> c == Meaning(ops, upvals, x, r0))
      {
        FinishedRuns(Machine(ops, upvals, fs.k), m0, fs.code, x, r0);
      }
    }
    if Fine(ops, x, Nothing) && nparams + Need(x) < MAXSTACK {
      ReturnFits(ops, m0, x);
      forall upvals: int -> Value, r0: Regs | EntryRegs(r0, nparams)
        ensures CodeOutcome(ops, upvals, NewFunction(nparams), x, r0) == Meaning(ops, upvals, x, r0)
      {
        FineOutcome(ops, upvals, m0, x, r0);
      }
    }
  }

  lemma WholeText(p: Priorities, toks: seq<Token>, x: Expr, room: int)
    requires SubExpr(p, toks, 0, 0, room) == Tree(x, |toks|)
    ensures Yield(x) == toks && Respects(p, x) && Nest(x) < room
  {
    SubExprSound(p, toks, 0, 0, room);
    assert toks[0..|toks|] == toks;
  }
}
