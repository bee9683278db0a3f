// The code generated for an expression computes the value of the expression.

module CodeGenSound {
  import opened LuaValue
  import opened LuaVM
  import opened CodeGen
  import opened CodeGenInv
  import opened CodeMeaning
  import opened Options

  // ----- runs of code while jumps are still pending -----

  // What taking jump j does to the registers once its test set is patched.
  function Deliver(code: seq<Instr>, j: int, reg: int, r: Regs): Regs {
    if ControlIsTestSet(code, j) then OnJump(PatchTest(code[Control(code, j)], reg), r) else r
  }

  lemma PatchNext(m: Machine, code: seq<Instr>, code': seq<Instr>, f: seq<int>, t: seq<int>,
                  vt: int, reg: int, pf: int, pt: int, hi: int, pc: int, r: Regs)
    requires Patched(code, code', f, t, vt, reg, pf, pt) && TestsPaired(code) && 0 <= pc < hi <= |code|
    requires forall j :: j in f || j in t ==> Pending(code, j) && Dest(code, j, f, vt, pf, pt) > j
    ensures var x := Next(m, code, hi, pc, r);
            Next(m, code', hi, pc, r) ==
              if x.Stop? && x.o.Exit? && (x.o.j in f || x.o.j in t)
              then Go(Dest(code, x.o.j, f, vt, pf, pt), Deliver(code, x.o.j, reg, x.o.r))
              else x
  {
    hide Next, Patched, PatchedAt, Deliver, Dest, TestsPaired;
    PatchedNear(code, code', f, t, vt, reg, pf, pt, pc);
    if code[pc].OpJmp? {
      PatchNextJump(m, code, code', f, t, vt, reg, pf, pt, hi, pc, r);
    } else if IsTest(code[pc]) {
      PatchNextTest(m, code, code', f, t, vt, reg, pf, pt, hi, pc, r);
    } else {
      PatchNextPlain(m, code, code', hi, pc, r);
    }
  }

  lemma PatchedNear(code: seq<Instr>, code': seq<Instr>, f: seq<int>, t: seq<int>,
                    vt: int, reg: int, pf: int, pt: int, pc: int)
    requires Patched(code, code', f, t, vt, reg, pf, pt) && TestsPaired(code) && 0 <= pc < |code|
    requires forall j :: j in f || j in t ==> Pending(code, j)
    ensures |code'| == |code| && code'[pc] == PatchedAt(code, pc, f, t, vt, reg, pf, pt)
    ensures pc > 0 ==> IsTest(code'[pc - 1]) == IsTest(code[pc - 1])
    ensures IsTest(code[pc]) ==>
              pc + 1 < |code| && code[pc + 1].OpJmp? && code'[pc + 1] == PatchedAt(code, pc + 1, f, t, vt, reg, pf, pt)
    ensures code[pc].OpJmp? || IsTest(code[pc]) || code'[pc] == code[pc]
  {
    assert code'[pc] == PatchedAt(code, pc, f, t, vt, reg, pf, pt);
    if pc > 0 { assert code'[pc - 1] == PatchedAt(code, pc - 1, f, t, vt, reg, pf, pt); }
    if pc + 1 < |code| { assert code'[pc + 1] == PatchedAt(code, pc + 1, f, t, vt, reg, pf, pt); }
  }

  lemma PatchNextJump(m: Machine, code: seq<Instr>, code': seq<Instr>, f: seq<int>, t: seq<int>,
                      vt: int, reg: int, pf: int, pt: int, hi: int, pc: int, r: Regs)
    requires 0 <= pc < hi <= |code| == |code'| && code[pc].OpJmp?
    requires code'[pc] == PatchedAt(code, pc, f, t, vt, reg, pf, pt)
    requires pc > 0 ==> IsTest(code'[pc - 1]) == IsTest(code[pc - 1])
    requires forall j :: j in f || j in t ==> Pending(code, j) && Dest(code, j, f, vt, pf, pt) > j
    ensures var x := Next(m, code, hi, pc, r);
            Next(m, code', hi, pc, r) ==
              if x.Stop? && x.o.Exit? && (x.o.j in f || x.o.j in t)
              then Go(Dest(code, x.o.j, f, vt, pf, pt), Deliver(code, x.o.j, reg, x.o.r))
              else x
  {
  }

  lemma PatchNextTest(m: Machine, code: seq<Instr>, code': seq<Instr>, f: seq<int>, t: seq<int>,
                      vt: int, reg: int, pf: int, pt: int, hi: int, pc: int, r: Regs)
    requires 0 <= pc < hi <= |code| == |code'| && IsTest(code[pc]) && pc + 1 < |code| && code[pc + 1].OpJmp?
    requires code'[pc] == PatchedAt(code, pc, f, t, vt, reg, pf, pt)
    requires code'[pc + 1] == PatchedAt(code, pc + 1, f, t, vt, reg, pf, pt)
    requires forall j :: j in f || j in t ==> Pending(code, j) && Dest(code, j, f, vt, pf, pt) > j
    ensures var x := Next(m, code, hi, pc, r);
            Next(m, code', hi, pc, r) ==
              if x.Stop? && x.o.Exit? && (x.o.j in f || x.o.j in t)
              then Go(Dest(code, x.o.j, f, vt, pf, pt), Deliver(code, x.o.j, reg, x.o.r))
              else x
  {
    TestSame(m, code[pc], code'[pc], reg, r);
    assert pc !in f && pc !in t;
    hide TakesJump;
  }

  // A patched test decides alike, and unpatched it moves nothing on its jump.
  lemma TestSame(m: Machine, i: Instr, i': Instr, reg: int, r: Regs)
    requires IsTest(i) && (i' == i || (i.OpTestSet? && i' == PatchTest(i, reg)))
    ensures IsTest(i') && TakesJump(m, i', r) == TakesJump(m, i, r)
  {
  }

  lemma PatchNextPlain(m: Machine, code: seq<Instr>, code': seq<Instr>, hi: int, pc: int, r: Regs)
    requires 0 <= pc < hi <= |code| == |code'| && code'[pc] == code[pc] && !code[pc].OpJmp? && !IsTest(code[pc])
    ensures Next(m, code', hi, pc, r) == Next(m, code, hi, pc, r)
    ensures (Next(m, code, hi, pc, r).Stop? ==> !Next(m, code, hi, pc, r).o.Exit?)
  {
  }

  // Patching a jump makes a run that stopped there go on at its destination.
  lemma {:induction false} PatchExec(m: Machine, code: seq<Instr>, code': seq<Instr>, f: seq<int>, t: seq<int>,
                                     vt: int, reg: int, pf: int, pt: int, hi: int, pc: int, r: Regs)
    requires Patched(code, code', f, t, vt, reg, pf, pt) && TestsPaired(code) && hi <= |code|
    requires forall j :: j in f || j in t ==> Pending(code, j) && Dest(code, j, f, vt, pf, pt) > j
    ensures var o := Exec(m, code, hi, pc, r);
            Exec(m, code', hi, pc, r) ==
              if o.Exit? && (o.j in f || o.j in t)
              then Exec(m, code', hi, Dest(code, o.j, f, vt, pf, pt), Deliver(code, o.j, reg, o.r))
              else o
    decreases hi - pc
  {
    if 0 <= pc < hi {
      PatchNext(m, code, code', f, t, vt, reg, pf, pt, hi, pc, r);
      var x := Next(m, code, hi, pc, r);
      ExitAhead(m, code, hi, pc, r);
      if x.Go? && x.pc > pc {
        hide Next, Patched, TestsPaired, Dest, Deliver;
        PatchExec(m, code, code', f, t, vt, reg, pf, pt, hi, x.pc, x.r);
      }
    }
  }

  lemma ExitAhead(m: Machine, code: seq<Instr>, hi: int, pc: int, r: Regs)
    requires 0 <= pc < hi <= |code|
    ensures var x := Next(m, code, hi, pc, r); x.Stop? && x.o.Exit? ==> pc <= x.o.j && Pending(code, x.o.j)
  {
  }

  lemma RemoveNext(m: Machine, code: seq<Instr>, code': seq<Instr>, list: seq<int>, hi: int, pc: int, r: Regs)
    requires Removed(code, code', list) && TestsPaired(code) && 0 <= pc < hi <= |code|
    requires forall j :: j in list ==> Pending(code, j)
    ensures Next(m, code', hi, pc, r) == Next(m, code, hi, pc, r)
  {
    assert code'[pc] == RemovedAt(code, pc, list);
    if pc > 0 { assert code'[pc - 1] == RemovedAt(code, pc - 1, list); }
    if pc + 1 < |code| { assert code'[pc + 1] == RemovedAt(code, pc + 1, list); }
  }

  // A test set and a test stop at their pending jump alike.
  lemma {:induction false} RemoveExec(m: Machine, code: seq<Instr>, code': seq<Instr>, list: seq<int>, hi: int, pc: int,
      r: Regs)
    requires Removed(code, code', list) && TestsPaired(code) && hi <= |code|
    requires forall j :: j in list ==> Pending(code, j)
    ensures Exec(m, code', hi, pc, r) == Exec(m, code, hi, pc, r)
    decreases hi - pc
  {
    if 0 <= pc < hi {
      RemoveNext(m, code, code', list, hi, pc, r);
      var x := Next(m, code, hi, pc, r);
      if x.Go? && x.pc > pc {
        hide Next, Removed, TestsPaired;
        RemoveExec(m, code, code', list, hi, x.pc, x.r);
      }
    }
  }

  // ----- where a run stands at the end of the code so far -----

  // Jumps waiting to land here count as having arrived.
  function Land(o: Outcome, jpc: seq<int>): Outcome {
    if o.Exit? && o.j in jpc then Fall(o.r) else o
  }

  function Reach(m: Machine, s: FS, lo: int, r0: Regs): Outcome {
    Land(Exec(m, s.code, |s.code|, lo, r0), s.jpc)
  }

  // A run may start at lo with registers r0.  At the start of a function the
  // free registers hold nil; otherwise lo is before any instruction that can
  // still be widened.
  ghost predicate Start(s: FS, lo: int, r0: Regs) {
    && 0 <= lo <= |s.code|
    && (|s.code| == 0 ==> forall i {:trigger Get(r0, i)} :: i >= s.nactvar ==> Get(r0, i) == Nil)
    && (Mergeable(s) ==> lo < |s.code|)
  }

  lemma StartKept(s: FS, s': FS, lo: int, r0: Regs)
    requires Start(s, lo, r0) && Grows(s, s')
    ensures Start(s', lo, r0)
  {
  }

  lemma StartBound(s: FS, lo: int, r0: Regs)
    requires Start(s, lo, r0)
    ensures 0 <= lo <= |s.code|
  {
  }

  function After(m: Machine, i: Instr, r: Regs): Outcome {
    if i.OpLoadNil? then Fall(SetNil(r, i.a, i.b))
    else if IsValueInstr(i) then
      match ValueOf(m, i, r) case Ok(v) => Fall(r[i.a := v]) case Error => Fail case Crash => Broken
    else Stuck
  }

  function Then(m: Machine, o: Outcome, i: Instr): Outcome {
    if o.Fall? then After(m, i, o.r) else o
  }

  // What was waiting to land here has landed once an instruction is emitted.
  lemma EmitExec(m: Machine, s: FS, i: Instr, lo: int, r0: Regs)
    requires Inv(s) && 0 <= lo <= |s.code|
    ensures Exec(m, Emit(s, i).code, |s.code|, lo, r0) == Reach(m, s, lo, r0)
  {
    var n := |s.code|;
    EmitShape(s, i);
    var code := Emit(s, i).code[..n];
    PatchExec(m, s.code, code, s.jpc, [], n, NO_REG, n, n, n, lo, r0);
    ExecSame(m, code, Emit(s, i).code, n, lo, r0);
  }

  lemma EmitReach(m: Machine, s: FS, i: Instr, lo: int, r0: Regs)
    requires Inv(s) && 0 <= lo <= |s.code| && (IsValueInstr(i) || i.OpLoadNil?)
    requires !Reach(m, s, lo, r0).Stuck?
    ensures Reach(m, Emit(s, i), lo, r0) == Then(m, Reach(m, s, lo, r0), i)
  {
    hide TestsPaired;
    EmitExec(m, s, i, lo, r0);
    EmitInv(s, i);
    var n, s' := |s.code|, Emit(s, i);
    hide Emit;
    ExecSplit(m, s'.code, n, n + 1, lo, r0);
  }

  // A conditional jump is taken, goes on pending, or falls through.
  lemma CondJumpReach(m: Machine, s: FS, i: Instr, lo: int, r0: Regs)
    requires Inv(s) && 0 <= lo <= |s.code| && IsTest(i) && !Reach(m, s, lo, r0).Stuck?
    ensures var o := Reach(m, s, lo, r0);
            Reach(m, CondJump(s, i).0, lo, r0) ==
              if !o.Fall? then o
              else match TakesJump(m, i, o.r)
                case Ok(taken) => if taken then Exit(|s.code| + 1, o.r) else o
                case Error => Fail
                case Crash => Broken
  {
    hide PatchTestReg;
    EmitExec(m, s, i, lo, r0);
    CondJumpInv(s, i);
    var n, s1, s' := |s.code|, Emit(s, i), CondJump(s, i).0;
    assert s'.code[..n] == s1.code[..n];
    assert forall p :: 0 <= p < n ==> s'.code[p] == s'.code[..n][p] && s1.code[p] == s1.code[..n][p];
    ExecSame(m, s1.code, s'.code, n, lo, r0);
    ExecSplit(m, s'.code, n, n + 2, lo, r0);
  }

  lemma {:induction false} ExitPending(m: Machine, code: seq<Instr>, hi: int, pc: int, r: Regs)
    requires hi <= |code|
    ensures var o := Exec(m, code, hi, pc, r); o.Exit? ==> o.j < hi && Pending(code, o.j)
    decreases hi - pc
  {
    if 0 <= pc < hi {
      var x := Next(m, code, hi, pc, r);
      if x.Go? && x.pc > pc {
        ExitPending(m, code, hi, x.pc, x.r);
      }
    }
  }

  // No jump crosses `mid', so every run to the end passes through it.
  lemma {:induction false} ExecThrough(m: Machine, code: seq<Instr>, mid: int, hi: int, pc: int, r: Regs, last: int)
    requires pc <= mid <= hi <= |code| && 0 <= mid && last <= mid && LandsBy(code, last) && TestsPaired(code)
    requires mid < |code| ==> !code[mid].OpJmp?
    ensures var o := Exec(m, code, mid, pc, r);
            Exec(m, code, hi, pc, r) == if o.Fall? then Exec(m, code, hi, mid, o.r) else o
    decreases mid - pc
  {
    if 0 <= pc < mid {
      var x := Next(m, code, mid, pc, r);
      assert IsTest(code[pc]) ==> code[pc + 1].OpJmp? && pc + 1 < mid;
      assert x == Next(m, code, hi, pc, r);
      if x.Go? && x.pc > pc {
        ExecThrough(m, code, mid, hi, x.pc, x.r, last);
      }
    }
  }

  // ----- what a descriptor stands for -----

  // What is wanted of the code so far: a value v, from registers r; to have left
  // by a jump that belongs to some enclosing expression; an error; or a broken instruction.
  datatype Want = Val(v: Value, r: Regs) | Away(j: int, r: Regs) | Err | Bad

  // The part of the code that has run when the descriptor's own value is taken.
  function Hi(s: FS, e: Exp): int {
    var n := |s.code|;
    if e.k.VReloc? && n >= 1 then n - 1 else if e.k.VJmp? && n >= 2 then n - 2 else n
  }

  function MainVal(m: Machine, s: FS, e: Exp, r: Regs): Res<Value> {
    match e.k
    case VNil => Ok(Nil)
    case VTrue => Ok(Bool(true))
    case VFalse => Ok(Bool(false))
    case VK(i) => if 0 <= i < |m.k| then Ok(m.k[i]) else Crash
    case VKNum(n) => Ok(Num(n))
    case VLocal(i) => Ok(Get(r, i))
    case VNonreloc(i) => Ok(Get(r, i))
    case VUpval(u) => Ok(m.upvals(u))
    case VReloc(pc) => if 0 <= pc < |s.code| && IsValueInstr(s.code[pc]) then ValueOf(m, s.code[pc], r) else Crash
    case VJmp(pc) =>
      if 1 <= pc < |s.code| && IsTest(s.code[pc - 1]) then
        match TakesJump(m, s.code[pc - 1], r) case Ok(b) => Ok(Bool(b)) case Error => Error case Crash => Crash
      else Crash
  }

  // The value jump j carries, if it belongs to a test set.
  function Carry(code: seq<Instr>, j: int, r: Regs): Option<Value> {
    if ControlIsTestSet(code, j) then Some(Get(r, code[Control(code, j)].b)) else None
  }

  // Leaving by jump j with registers r delivers v: what the jump carries, or else the
  // plain boolean.
  ghost predicate Carries(code: seq<Instr>, j: int, r: Regs, v: Value, truth: bool) {
    v == Delivered(Left(truth, Carry(code, j, r)))
  }

  // What the run carries that has just landed at the end of the code.
  function Arrived(m: Machine, s: FS, lo: int, r0: Regs): Option<Value> {
    var o := Exec(m, s.code, |s.code|, lo, r0);
    if o.Exit? && o.j in s.jpc then Carry(s.code, o.j, o.r) else None
  }

  function RunOf(m: Machine, s: FS, e: Exp, lo: int, r0: Regs): Outcome {
    Land(Exec(m, s.code, Hi(s, e), lo, r0), s.jpc)
  }

  ghost predicate Means(m: Machine, s: FS, e: Exp, f0: int, lo: int, r0: Regs, w: Want) {
    var o := RunOf(m, s, e, lo, r0);
    match w
    case Err => o.Fail? || (o.Fall? && MainVal(m, s, e, o.r) == Error)
    case Bad => o.Broken? || (o.Fall? && MainVal(m, s, e, o.r) == Crash)
    case Away(j, r) => o == Exit(j, r) && j !in Own(e)
    case Val(v, r) =>
      (o.Fall? || o.Exit?) && Agree(r, o.r, f0) &&
      if o.Fall? then MainVal(m, s, e, o.r) == Ok(v)
      else (o.j in e.t && Carries(s.code, o.j, o.r, v, true)) || (o.j in e.f && Carries(s.code, o.j, o.r, v, false))
  }

  // Same lists, same exits, and the same value where both fall through.
  lemma MeansStep(m: Machine, s: FS, e: Exp, s': FS, e': Exp, f0: int, lo: int, r0: Regs, w: Want)
    requires Means(m, s, e, f0, lo, r0, w)
    requires e'.t == e.t && e'.f == e.f && Own(e') == Own(e)
    requires forall j :: j in e.t || j in e.f ==> SameJump(s.code, s'.code, j)
    requires var o, o' := RunOf(m, s, e, lo, r0), RunOf(m, s', e', lo, r0);
             if o.Fall? then
               match MainVal(m, s, e, o.r)
               case Ok(v) => o'.Fall? && Agree(o.r, o'.r, f0) && MainVal(m, s', e', o'.r) == Ok(v)
               case Error => o'.Fail? || (o'.Fall? && MainVal(m, s', e', o'.r) == Error)
               case Crash => o'.Broken? || (o'.Fall? && MainVal(m, s', e', o'.r) == Crash)
             else o' == o
    ensures Means(m, s', e', f0, lo, r0, w)
  {
  }

  lemma RelocRun(m: Machine, s2: FS, i: Instr, e: Exp, lo: int, r0: Regs)
    requires Inv(s2) && 0 <= lo <= |s2.code| && IsValueInstr(i)
    ensures var s3, e3 := Emit(s2, i), e.(k := VReloc(|s2.code|));
            RunOf(m, s3, e3, lo, r0) == Reach(m, s2, lo, r0) &&
            forall r :: MainVal(m, s3, e3, r) == ValueOf(m, i, r)
  {
    hide Exec;
    EmitInv(s2, i);
    EmitExec(m, s2, i, lo, r0);
    hide Emit, Exec, Inv;
    assert Emit(s2, i).jpc == [] by { EmitKeeps(s2, i); }
  }

  lemma EmitKeeps(s: FS, i: Instr)
    ensures Emit(s, i).jpc == [] && Emit(s, i).k == s.k && Emit(s, i).overflow == s.overflow
  {
  }

  lemma DischargeVarsSound(m: Machine, s: FS, e: Exp, f0: int, lo: int, r0: Regs, w: Want)
    requires Inv(s) && Usable(s, e, f0) && Start(s, lo, r0) && Means(m, s, e, f0, lo, r0, w)
    ensures var (s', e') := DischargeVars(s, e); Means(m, s', e', f0, lo, r0, w) && Start(s', lo, r0)
  {
    hide IsValueInstr;
    DischargeVarsInv(s, e, f0);
    var (s', e') := DischargeVars(s, e);
    StartKept(s, s', lo, r0);
    if e.k.VUpval? {
      hide Exec, Emit, Inv, Start, Usable, Means;
      RelocRun(m, s, OpGetUpval(0, e.k.uv), e, lo, r0);
      ListsSame(s, s', e, f0);
      MeansStep(m, s, e, s', e', f0, lo, r0, w);
    } else {
      hide Exec, Inv, Start, Usable;
    }
  }

  lemma ListsSame(s: FS, s': FS, e: Exp, f0: int)
    requires Usable(s, e, f0) && Frame(s, s', [])
    ensures forall j :: j in e.t || j in e.f ==> SameJump(s.code, s'.code, j)
  {
    hide SameJump;
    forall j | j in e.t || j in e.f ensures SameJump(s.code, s'.code, j) {
      assert Pending(s.code, j);
    }
  }

  // Widening the load before: no jump lands in between, so it always runs.
  lemma MergeReach(m: Machine, s: FS, a: int, b: int, b': int, lo: int, r0: Regs)
    requires Inv(s) && Start(s, lo, r0) && Mergeable(s) && s.code[|s.code| - 1] == OpLoadNil(a, b) && b <= b'
    ensures var s' := s.(code := s.code[|s.code| - 1 := OpLoadNil(a, b')]);
            var o := Exec(m, s.code, |s.code| - 1, lo, r0);
            s.jpc == [] &&
            Reach(m, s, lo, r0) == (if o.Fall? then Fall(SetNil(o.r, a, b)) else o) &&
            Reach(m, s', lo, r0) == (if o.Fall? then Fall(SetNil(o.r, a, b')) else o)
  {
    var n := |s.code|;
    var s' := s.(code := s.code[n - 1 := OpLoadNil(a, b')]);
    ReplaceLast(s, OpLoadNil(a, b'));
    ExecThrough(m, s.code, n - 1, n, lo, r0, s.lasttarget);
    ExecThrough(m, s'.code, n - 1, n, lo, r0, s.lasttarget);
    ExecSame(m, s.code, s'.code, n - 1, lo, r0);
    hide Inv, Start, Mergeable;
  }

  lemma EmitNilReach(m: Machine, s: FS, from: int, lo: int, r0: Regs)
    requires Inv(s) && Start(s, lo, r0) && from >= s.nactvar && !Reach(m, s, lo, r0).Stuck?
    ensures var o, o' := Reach(m, s, lo, r0), Reach(m, EmitNil(s, from, 1), lo, r0);
            if o.Fall? then o'.Fall? && Agree(o.r, o'.r, from) && Get(o'.r, from) == Nil else o' == o
  {
    EmitNilCases(s, from);
    var n := |s.code|;
    if Merges(s, from) {
      var prev := s.code[n - 1];
      var b' := if from > prev.b then from else prev.b;
      assert s.code[n - 1 := OpLoadNil(prev.a, prev.b)] == s.code;
      hide Exec, EmitNil, Inv, Start;
      MergeReach(m, s, prev.a, prev.b, b', lo, r0);
    } else if n == 0 > s.lasttarget {
    } else {
      hide Exec, Emit, EmitNil, Inv;
      assert 0 <= lo <= |s.code|;
      EmitReach(m, s, OpLoadNil(from, from), lo, r0);
    }
  }

  // Loading the descriptor's value leaves it in register f0.
  lemma LoadReach(m: Machine, s: FS, e: Exp, f0: int, lo: int, r0: Regs)
    requires Inv(s) && Usable(s, e, f0) && Start(s, lo, r0) && !RunOf(m, s, e, lo, r0).Stuck?
    requires !e.k.VLocal? && !e.k.VUpval? && !e.k.VJmp? && Load(s, e.k, f0).k <= m.k
    ensures var o, o' := RunOf(m, s, e, lo, r0), Reach(m, Load(s, e.k, f0), lo, r0);
            if o.Fall? then
              match MainVal(m, s, e, o.r)
              case Ok(v) => o'.Fall? && Agree(o.r, o'.r, f0) && Get(o'.r, f0) == v
              case Error => o'.Fail?
              case Crash => o'.Broken?
            else o' == o
  {
    if e.k.VNil? {
      hide EmitNil, Exec, Inv, Start;
      EmitNilReach(m, s, f0, lo, r0);
    } else if e.k.VReloc? {
      hide Exec, Inv, Start;
      RelocReach(m, s, e, f0, lo, r0);
    } else if !(e.k.VNonreloc? && e.k.reg == f0) {
      hide Emit, Exec, Inv, Usable;
      ConstReach(m, s, e, f0, lo, r0);
    }
  }

  lemma ConstReach(m: Machine, s: FS, e: Exp, f0: int, lo: int, r0: Regs)
    requires Inv(s) && Start(s, lo, r0) && !RunOf(m, s, e, lo, r0).Stuck?
    requires e.k.VFalse? || e.k.VTrue? || e.k.VK? || e.k.VKNum? || (e.k.VNonreloc? && e.k.reg != f0)
    requires Load(s, e.k, f0).k <= m.k
    ensures var i := LoadInstr(s, e.k, f0).1;
            IsValueInstr(i) && i.a == f0 && (forall r :: ValueOf(m, i, r) == MainVal(m, s, e, r)) &&
            Reach(m, Load(s, e.k, f0), lo, r0) == Then(m, RunOf(m, s, e, lo, r0), i)
  {
    var (s1, i) := LoadInstr(s, e.k, f0);
    assert Inv(s1) && s1.code == s.code && s1.jpc == s.jpc && 0 <= lo <= |s.code|;
    assert Load(s, e.k, f0) == Emit(s1, i) && s1.k <= m.k;
    forall r ensures ValueOf(m, i, r) == MainVal(m, s, e, r) {
      LoadValue(m, s, e, f0, r);
    }
    hide Emit, Load, Exec, Inv, ValueOf, MainVal;
    EmitReach(m, s1, i, lo, r0);
  }

  lemma RelocFacts(m: Machine, s: FS, e: Exp, f0: int, lo: int, r0: Regs)
    requires Inv(s) && Usable(s, e, f0) && Start(s, lo, r0) && e.k.VReloc?
    ensures e.k.pc == |s.code| - 1 >= 0 && s.jpc == [] && IsValueInstr(s.code[e.k.pc]) && 0 <= lo <= |s.code|
    ensures lo == |s.code| ==> RunOf(m, s, e, lo, r0).Stuck?
  {
  }

  lemma LastExec(m: Machine, code: seq<Instr>, r: Regs)
    requires |code| > 0 && IsValueInstr(code[|code| - 1])
    ensures Exec(m, code, |code|, |code| - 1, r) == After(m, code[|code| - 1], r)
  {
  }

  lemma RelocReach(m: Machine, s: FS, e: Exp, f0: int, lo: int, r0: Regs)
    requires Inv(s) && Usable(s, e, f0) && Start(s, lo, r0) && e.k.VReloc? && !RunOf(m, s, e, lo, r0).Stuck?
    ensures var s' := s.(code := SetReloc(s.code, e.k.pc, f0));
            Reach(m, s', lo, r0) == Then(m, RunOf(m, s, e, lo, r0), SetA(s.code[e.k.pc], f0))
    ensures forall r :: ValueOf(m, SetA(s.code[e.k.pc], f0), r) == ValueOf(m, s.code[e.k.pc], r)
  {
    hide Exec, Inv, Usable, Start;
    RelocFacts(m, s, e, f0, lo, r0);
    var n := |s.code|;
    var code' := SetReloc(s.code, e.k.pc, f0);
    ExecSame(m, s.code, code', n - 1, lo, r0);
    ExecSplit(m, code', n - 1, n, lo, r0);
    var o := Exec(m, code', n - 1, lo, r0);
    if o.Fall? { LastExec(m, code', o.r); }
  }

  lemma LoadSound(m: Machine, s: FS, e: Exp, f0: int, lo: int, r0: Regs, w: Want)
    requires Inv(s) && Usable(s, e, f0) && Start(s, lo, r0) && Means(m, s, e, f0, lo, r0, w)
    requires !e.k.VLocal? && !e.k.VUpval? && !e.k.VJmp? && Load(s, e.k, f0).k <= m.k
    ensures var s' := Load(s, e.k, f0);
            Means(m, s', e.(k := VNonreloc(f0)), f0, lo, r0, w) && Start(s', lo, r0)
  {
    var s', e' := Load(s, e.k, f0), e.(k := VNonreloc(f0));
    LoadInv(s, e, f0, f0);
    StartKept(s, s', lo, r0);
    ListsSame(s, s', e, f0);
    LoadReach(m, s, e, f0, lo, r0);
    hide Load, Inv, Start, Usable;
    MeansStep(m, s, e, s', e', f0, lo, r0, w);
  }

  lemma LoadValue(m: Machine, s: FS, e: Exp, reg: int, r: Regs)
    requires e.k.VFalse? || e.k.VTrue? || e.k.VK? || e.k.VKNum? || e.k.VNonreloc?
    requires LoadInstr(s, e.k, reg).0.k <= m.k
    ensures IsValueInstr(LoadInstr(s, e.k, reg).1)
    ensures ValueOf(m, LoadInstr(s, e.k, reg).1, r) == MainVal(m, s, e, r)
  {
  }

  lemma Discharge2RegSound(m: Machine, s0: FS, e0: Exp, f0: int, lo: int, r0: Regs, w: Want)
    requires Inv(s0) && Usable(s0, e0, f0) && Start(s0, lo, r0) && Means(m, s0, e0, f0, lo, r0, w)
    requires Discharge2Reg(s0, e0, f0).0.k <= m.k
    ensures var (s, e) := Discharge2Reg(s0, e0, f0); Means(m, s, e, f0, lo, r0, w) && Start(s, lo, r0)
  {
    DischargeVarsInv(s0, e0, f0);
    DischargeVarsSound(m, s0, e0, f0, lo, r0, w);
    var (s, e) := DischargeVars(s0, e0);
    if !e.k.VJmp? {
      hide DischargeVars, Inv, Usable, Start, Means, Load;
      LoadSound(m, s, e, f0, lo, r0, w);
    }
  }

  // ----- closing the lists of an expression: exp2reg -----

  // The descriptor just after discharge, and the list of its true exits.
  ghost predicate Discharged(s: FS, e: Exp, t: seq<int>, f0: int) {
    && ListsInv(s, e) && ToPatch(s, e, t) && KindInv(s, e, f0)
    && (e.k == VNonreloc(f0) || e.k.VJmp?)
    && t == (if e.k.VJmp? then e.t + [e.k.pc] else e.t)
  }

  // Where the value is when the run reaches the end of the code before the labels.
  ghost predicate Leaves(s: FS, e: Exp, t: seq<int>, f0: int, o: Outcome, w: Want) {
    match w
    case Err => o.Fail?
    case Bad => o.Broken?
    case Away(j, r) => o == Exit(j, r) && j !in t && j !in e.f && j !in s.jpc
    case Val(v, r) =>
      (o.Fall? || o.Exit?) && Agree(r, o.r, f0) &&
      if o.Fall? || o.j in s.jpc then (if e.k.VJmp? then v == Bool(false) else Get(o.r, f0) == v)
      else (o.j in t && Carries(s.code, o.j, o.r, v, true)) || (o.j in e.f && Carries(s.code, o.j, o.r, v, false))
  }

  lemma MeansLeaves(m: Machine, s: FS, e: Exp, t: seq<int>, f0: int, lo: int, r0: Regs, w: Want)
    requires Inv(s) && Discharged(s, e, t, f0) && Means(m, s, e, f0, lo, r0, w) && 0 <= lo <= |s.code|
    ensures Leaves(s, e, t, f0, Exec(m, s.code, |s.code|, lo, r0), w)
    ensures !Exec(m, s.code, |s.code|, lo, r0).Stuck?
  {
    hide Exec, ValueOf;
    if e.k.VJmp? {
      hide Inv, ToPatch, PendingList;
      ComparisonLists(s, e, t, f0);
      ComparisonReach(m, s.code, lo, r0);
    } else {
      hide Inv, PendingList;
    }
  }

  lemma ComparisonLists(s: FS, e: Exp, t: seq<int>, f0: int)
    requires Inv(s) && Discharged(s, e, t, f0) && e.k.VJmp?
    ensures var n := |s.code|;
            n >= 2 && e.k.pc == n - 1 && s.code[n - 2].OpComp? && s.code[n - 1] == OpJmp(NO_JUMP) && s.jpc == [] &&
            e.k.pc !in e.t && e.k.pc !in e.f && Disjoint(e.t, e.f)
    ensures NeedValue(s.code, t)
  {
    assert e.k.pc in t && !ControlIsTestSet(s.code, e.k.pc);
  }

  // Running the comparison a VJMP descriptor holds, and its jump.
  lemma ComparisonReach(m: Machine, code: seq<Instr>, lo: int, r0: Regs)
    requires |code| >= 2 && IsTest(code[|code| - 2]) && code[|code| - 1] == OpJmp(NO_JUMP)
    ensures var n := |code|; var o := Exec(m, code, n - 2, lo, r0);
            o.Stuck? || Exec(m, code, n, lo, r0) ==
              if !o.Fall? then o
              else match TakesJump(m, code[n - 2], o.r)
                case Ok(taken) => if taken then Exit(n - 1, o.r) else o
                case Error => Fail
                case Crash => Broken
  {
    ExecSplit(m, code, |code| - 2, |code|, lo, r0);
  }

  // Patching every exit to the end, none of them needing a boolean loaded.
  lemma PatchedDirect(m: Machine, s: FS, e: Exp, t: seq<int>, f0: int, lo: int, r0: Regs, w: Want, s': FS)
    requires Inv(s) && Discharged(s, e, t, f0) && Means(m, s, e, f0, lo, r0, w) && 0 <= lo <= |s.code|
    requires f0 != NO_REG && !e.k.VJmp? && !NeedValue(s.code, t) && !NeedValue(s.code, e.f)
    requires s'.jpc == s.jpc && Patched(s.code, s'.code, e.f, t, |s.code|, f0, NO_JUMP, NO_JUMP)
    ensures Means(m, s', Exp(VNonreloc(f0), [], []), f0, lo, r0, w)
  {
    MeansLeaves(m, s, e, t, f0, lo, r0, w);
    var n := |s.code|;
    forall j | j in e.f || j in t ensures Pending(s.code, j) && Dest(s.code, j, e.f, n, NO_JUMP, NO_JUMP) > j {
      assert ControlIsTestSet(s.code, j);
    }
    PatchExec(m, s.code, s'.code, e.f, t, n, f0, NO_JUMP, NO_JUMP, n, lo, r0);
  }

  lemma LabelledExec(m: Machine, s: FS, e: Exp, code1: seq<Instr>, f0: int, lo: int, r0: Regs)
    requires var skip := if e.k.VJmp? then [] else [OpJmp(NO_JUMP)];
             code1 == s.code + skip + [OpLoadBool(f0, false, true), OpLoadBool(f0, true, false)]
    requires TestsPaired(s.code) && !Exec(m, s.code, |s.code|, lo, r0).Stuck?
    ensures var o := Exec(m, s.code, |s.code|, lo, r0);
            Exec(m, code1, |code1|, lo, r0) ==
              if !o.Fall? then o
              else if e.k.VJmp? then Fall(o.r[f0 := Bool(false)])
              else Exit(|s.code|, o.r)
  {
    var n := |s.code|;
    ExecSame(m, s.code, code1, n, lo, r0);
    ExecSplit(m, code1, n, |code1|, lo, r0);
    assert n > 0 ==> code1[n - 1] == s.code[n - 1];
  }

  lemma LoadsExec(m: Machine, code: seq<Instr>, f0: int, r: Regs)
    requires |code| >= 2
    requires code[|code| - 2] == OpLoadBool(f0, false, true) && code[|code| - 1] == OpLoadBool(f0, true, false)
    ensures Exec(m, code, |code|, |code| - 2, r) == Fall(r[f0 := Bool(false)])
    ensures Exec(m, code, |code|, |code| - 1, r) == Fall(r[f0 := Bool(true)])
    ensures Exec(m, code, |code|, |code|, r) == Fall(r)
  {
  }

  // Where a run that stood at o goes once the lists are closed with labels.
  function Settled(s: FS, e: Exp, t: seq<int>, f0: int, o: Outcome): Outcome {
    if o.Fall? then (if e.k.VJmp? then Fall(o.r[f0 := Bool(false)]) else Exit(|s.code|, o.r))
    else if o.Exit? && (o.j in e.f || o.j in t) then
      if ControlIsTestSet(s.code, o.j) then Fall(Deliver(s.code, o.j, f0, o.r))
      else Fall(o.r[f0 := Bool(o.j !in e.f)])
    else o
  }

  lemma SettledMeans(m: Machine, s: FS, e: Exp, t: seq<int>, f0: int, o: Outcome, w: Want, jpc: seq<int>)
    requires Discharged(s, e, t, f0) && Leaves(s, e, t, f0, o, w) && f0 != NO_REG
    requires jpc == if e.k.VJmp? then [] else [|s.code|] + s.jpc
    requires o.Exit? ==> o.j < |s.code|
    ensures var o' := Land(Settled(s, e, t, f0, o), jpc);
            match w
            case Err => o'.Fail?
            case Bad => o'.Broken?
            case Away(j, r) => o' == Exit(j, r)
            case Val(v, r) => o'.Fall? && Agree(r, o'.r, f0) && Get(o'.r, f0) == v
  {
  }

  ghost predicate Labelled(s: FS, s1: FS, e: Exp, f0: int) {
    var skip := if e.k.VJmp? then [] else [OpJmp(NO_JUMP)];
    s1.code == s.code + skip + [OpLoadBool(f0, false, true), OpLoadBool(f0, true, false)] &&
    s1 == s.(code := s1.code, jpc := if skip == [] then [] else [|s.code|] + s.jpc, lasttarget := |s1.code|)
  }

  lemma LabelledLists(s: FS, s1: FS, e: Exp, t: seq<int>, f0: int, s': FS)
    requires Inv(s) && Discharged(s, e, t, f0) && Labelled(s, s1, e, f0)
    requires Patched(s1.code, s'.code, e.f, t, |s1.code|, f0, |s1.code| - 2, |s1.code| - 1)
    ensures var n := |s1.code|;
            TestsPaired(s1.code) && n >= 2 &&
            (forall j :: j in e.f || j in t ==>
               (SameJump(s.code, s1.code, j) && Pending(s1.code, j) &&
                Dest(s1.code, j, e.f, n, n - 2, n - 1) > j && j < |s.code|)) &&
            s'.code[n - 2] == OpLoadBool(f0, false, true) && s'.code[n - 1] == OpLoadBool(f0, true, false)
  {
    LoadLabelsInv(s, s1, if e.k.VJmp? then [] else [OpJmp(NO_JUMP)], f0);
    var n := |s1.code|;
    forall j | j in e.f || j in t
      ensures SameJump(s.code, s1.code, j) && Pending(s1.code, j) && Dest(s1.code, j, e.f, n, n - 2, n - 1) > j
      ensures j < |s.code|
    {
      assert Pending(s.code, j);
    }
    assert s'.code[n - 2] == PatchedAt(s1.code, n - 2, e.f, t, n, f0, n - 2, n - 1);
    assert s'.code[n - 1] == PatchedAt(s1.code, n - 1, e.f, t, n, f0, n - 2, n - 1);
  }

  // The exits that deliver no value of their own go by way of the loads.
  lemma PatchedLabelsRun(m: Machine, s: FS, s1: FS, e: Exp, t: seq<int>, f0: int, lo: int, r0: Regs, s': FS)
    requires Inv(s) && Discharged(s, e, t, f0) && Labelled(s, s1, e, f0)
    requires !Exec(m, s.code, |s.code|, lo, r0).Stuck?
    requires Patched(s1.code, s'.code, e.f, t, |s1.code|, f0, |s1.code| - 2, |s1.code| - 1)
    ensures |s'.code| == |s1.code|
    ensures Exec(m, s'.code, |s'.code|, lo, r0) == Settled(s, e, t, f0, Exec(m, s.code, |s.code|, lo, r0))
  {
    hide Exec, Inv, Discharged, TestsPaired, PatchedAt;
    LabelledLists(s, s1, e, t, f0, s');
    assert TestsPaired(s.code) by { InvPaired(s); }
    LabelledExec(m, s, e, s1.code, f0, lo, r0);
    var n := |s1.code|;
    PatchExec(m, s1.code, s'.code, e.f, t, n, f0, n - 2, n - 1, n, lo, r0);
    var o1 := Exec(m, s1.code, n, lo, r0);
    ExitPending(m, s.code, |s.code|, lo, r0);
    if o1.Exit? {
      LoadsExec(m, s'.code, f0, Deliver(s1.code, o1.j, f0, o1.r));
    }
    hide Patched, Labelled;
  }

  lemma InvPaired(s: FS)
    requires Inv(s)
    ensures TestsPaired(s.code)
  {
  }

  lemma PatchedLabels(m: Machine, s: FS, s1: FS, e: Exp, t: seq<int>, f0: int, lo: int, r0: Regs, w: Want, s': FS)
    requires Inv(s) && Discharged(s, e, t, f0) && Means(m, s, e, f0, lo, r0, w) && 0 <= lo <= |s.code|
    requires f0 != NO_REG && Labelled(s, s1, e, f0)
    requires s'.jpc == s1.jpc && Patched(s1.code, s'.code, e.f, t, |s1.code|, f0, |s1.code| - 2, |s1.code| - 1)
    ensures Means(m, s', Exp(VNonreloc(f0), [], []), f0, lo, r0, w)
  {
    hide Exec, Leaves, Settled, Patched, Discharged, Inv;
    MeansLeaves(m, s, e, t, f0, lo, r0, w);
    PatchedLabelsRun(m, s, s1, e, t, f0, lo, r0, s');
    ExitPending(m, s.code, |s.code|, lo, r0);
    SettledMeans(m, s, e, t, f0, Exec(m, s.code, |s.code|, lo, r0), w, s'.jpc);
  }

  lemma Exp2RegListsSound(m: Machine, s: FS, e: Exp, t: seq<int>, f0: int, lo: int, r0: Regs, w: Want)
    requires Inv(s) && Discharged(s, e, t, f0) && Means(m, s, e, f0, lo, r0, w) && 0 <= lo <= |s.code| && f0 != NO_REG
    ensures Means(m, Exp2RegLists(s, e, t, f0), Exp(VNonreloc(f0), [], []), f0, lo, r0, w)
  {
    hide Exec, Inv, Means, LoadLabels, PatchListAux, Exp2RegLists, Patched, Discharged, NeedValue;
    Exp2RegListsCases(s, e, t, f0);
    var s' := Exp2RegLists(s, e, t, f0);
    if t == [] && e.f == [] {
      NothingToPatch(s, e, t, f0);
    } else if NeedValue(s.code, t) || NeedValue(s.code, e.f) {
      var (s1, pf, pt) := LoadLabels(s, e, f0);
      LabelsPatched(s, e, t, f0);
      PatchedLabels(m, s, s1, e, t, f0, lo, r0, w, s');
    } else {
      DirectPatched(s, e, t, f0);
      PatchedDirect(m, s, e, t, f0, lo, r0, w, s');
    }
  }

  lemma NothingToPatch(s: FS, e: Exp, t: seq<int>, f0: int)
    requires Discharged(s, e, t, f0) && t == [] && e.f == []
    ensures e == Exp(VNonreloc(f0), [], [])
  {
  }

  lemma Exp2RegListsCases(s: FS, e: Exp, t: seq<int>, f0: int)
    ensures var s' := Exp2RegLists(s, e, t, f0);
            if t == [] && e.f == [] then s' == s
            else if NeedValue(s.code, t) || NeedValue(s.code, e.f) then
              var (s1, pf, pt) := LoadLabels(s, e, f0);
              s'.code == PatchListAux(PatchListAux(s1.code, e.f, |s1.code|, f0, pf), t, |s1.code|, f0, pt) &&
              s'.jpc == s1.jpc
            else
              s'.code == PatchListAux(PatchListAux(s.code, e.f, |s.code|, f0, NO_JUMP), t, |s.code|, f0, NO_JUMP) &&
              s'.jpc == s.jpc
  {
    hide LoadLabels, PatchListAux, NeedValue;
  }

  lemma LabelsPatched(s: FS, e: Exp, t: seq<int>, f0: int)
    requires Inv(s) && Discharged(s, e, t, f0)
    ensures var (s1, pf, pt) := LoadLabels(s, e, f0);
            Labelled(s, s1, e, f0) && pf == |s1.code| - 2 && pt == |s1.code| - 1 &&
            Patched(s1.code, PatchListAux(PatchListAux(s1.code, e.f, |s1.code|, f0, pf), t, |s1.code|, f0, pt),
                    e.f, t, |s1.code|, f0, pf, pt)
  {
    hide LoadLabels, PatchListAux, Patched;
    var (s1, pf, pt) := LoadLabels(s, e, f0);
    LoadLabelsShape(s, e, f0);
    ListsLabelled(s, s1, e, t, f0);
    TwoPatches(s1.code, e.f, t, |s1.code|, f0, pf, pt);
  }

  lemma DirectPatched(s: FS, e: Exp, t: seq<int>, f0: int)
    requires Inv(s) && Discharged(s, e, t, f0) && !NeedValue(s.code, t)
    ensures !e.k.VJmp?
    ensures Patched(s.code, PatchListAux(PatchListAux(s.code, e.f, |s.code|, f0, NO_JUMP), t, |s.code|, f0, NO_JUMP),
                    e.f, t, |s.code|, f0, NO_JUMP, NO_JUMP)
  {
    TwoPatches(s.code, e.f, t, |s.code|, f0, NO_JUMP, NO_JUMP);
    if e.k.VJmp? {
      ComparisonLists(s, e, t, f0);
    }
  }

  lemma ListsLabelled(s: FS, s1: FS, e: Exp, t: seq<int>, f0: int)
    requires ToPatch(s, e, t) && Labelled(s, s1, e, f0)
    ensures PendingList(s1.code, e.f) && PendingList(s1.code, t) && Disjoint(e.f, t)
  {
    forall j | j in e.f || j in t ensures Pending(s1.code, j) {
      assert Pending(s.code, j) && s1.code[j] == s.code[j];
    }
  }

  lemma Exp2RegSound(m: Machine, s0: FS, e0: Exp, f0: int, lo: int, r0: Regs, w: Want)
    requires Inv(s0) && Usable(s0, e0, f0) && Start(s0, lo, r0) && Means(m, s0, e0, f0, lo, r0, w) && f0 != NO_REG
    requires Exp2Reg(s0, e0, f0).0.k <= m.k
    ensures var (s, e) := Exp2Reg(s0, e0, f0); Means(m, s, e, f0, lo, r0, w) && Start(s, lo, r0)
  {
    hide Discharge2Reg, Exp2RegLists, Means, Start, Inv, Usable, Discharged;
    DischargedFacts(s0, e0, f0);
    var (s, e) := Discharge2Reg(s0, e0, f0);
    var t := if e.k.VJmp? then e.t + [e.k.pc] else e.t;
    Discharge2RegSound(m, s0, e0, f0, lo, r0, w);
    StartBound(s, lo, r0);
    Exp2RegListsSound(m, s, e, t, f0, lo, r0, w);
    Exp2RegInv(s0, e0, f0, f0);
    StartKept(s0, Exp2Reg(s0, e0, f0).0, lo, r0);
  }

  lemma DischargedFacts(s0: FS, e0: Exp, f0: int)
    requires Inv(s0) && Usable(s0, e0, f0)
    ensures var (s, e) := Discharge2Reg(s0, e0, f0);
            var t := if e.k.VJmp? then e.t + [e.k.pc] else e.t;
            Inv(s) && Discharged(s, e, t, f0) && s.k <= Exp2RegLists(s, e, t, f0).k
  {
    Discharge2RegInv(s0, e0, f0, f0);
    hide Discharge2Reg, Exp2RegLists;
    var (s, e) := Discharge2Reg(s0, e0, f0);
    var t := if e.k.VJmp? then e.t + [e.k.pc] else e.t;
    if e.k.VJmp? {
      DistinctConcat(e.t, [e.k.pc]);
    }
    Exp2RegListsInv(s, e, t, f0);
  }

  // Meaning depends on the code and the jumps waiting to land, not on the register count.
  lemma SameMeaning(m: Machine, s: FS, s1: FS, e: Exp, f0: int, lo: int, r0: Regs, w: Want)
    requires Means(m, s, e, f0, lo, r0, w) && Start(s, lo, r0)
    requires s1.code == s.code && s1.jpc == s.jpc && s1.lasttarget == s.lasttarget && s1.nactvar == s.nactvar
    ensures Means(m, s1, e, f0, lo, r0, w) && Start(s1, lo, r0)
  {
    hide Exec;
  }

  lemma TakeReg(s: FS, e: Exp, f0: int)
    requires Inv(s) && Usable(s, e, f0) && s.freereg == FreeAfter(s, e, f0)
    ensures var s1 := ReserveRegs(FreeExp(s, e), 1);
            Inv(s1) && Usable(s1, e, f0) && s1.freereg == f0 + 1 &&
            s1 == s.(freereg := f0 + 1, maxstack := s1.maxstack, overflow := s1.overflow) &&
            (!s1.overflow ==> f0 < MAXSTACK)
  {
  }

  // The frame has not overflowed, so register f0 exists.
  lemma Exp2NextRegSound(m: Machine, s0: FS, e0: Exp, f0: int, lo: int, r0: Regs, w: Want)
    requires Inv(s0) && ExpInv(s0, e0, f0) && Start(s0, lo, r0) && Means(m, s0, e0, f0, lo, r0, w)
    requires var s := Exp2NextReg(s0, e0).0; s.k <= m.k && !s.overflow
    ensures var (s, e) := Exp2NextReg(s0, e0); Means(m, s, e, f0, lo, r0, w) && Start(s, lo, r0)
  {
    hide Exp2Reg, Exec, Means, Start;
    DischargeVarsInv(s0, e0, f0);
    DischargeVarsSound(m, s0, e0, f0, lo, r0, w);
    var (s, e) := DischargeVars(s0, e0);
    hide DischargeVars;
    TakeReg(s, e, f0);
    var s1 := ReserveRegs(FreeExp(s, e), 1);
    Exp2RegInv(s1, e, f0, f0);
    hide ReserveRegs, FreeExp, Inv, Usable;
    SameMeaning(m, s, s1, e, f0, lo, r0, w);
    Exp2RegSound(m, s1, e, f0, lo, r0, w);
  }

  // The constants are those of the finished function, and its frame is small enough.
  ghost predicate Fits(m: Machine, s: FS) {
    s.k <= m.k && !s.overflow
  }

  lemma FitsBefore(m: Machine, s: FS, s': FS)
    requires Grows(s, s') && Fits(m, s')
    ensures Fits(m, s)
  {
  }

  lemma Exp2AnyRegSound(m: Machine, s0: FS, e0: Exp, f0: int, lo: int, r0: Regs, w: Want)
    requires Inv(s0) && ExpInv(s0, e0, f0) && Start(s0, lo, r0) && Means(m, s0, e0, f0, lo, r0, w)
    requires Fits(m, Exp2AnyReg(s0, e0).0)
    ensures var (s, e) := Exp2AnyReg(s0, e0); Means(m, s, e, f0, lo, r0, w) && Start(s, lo, r0)
  {
    hide Exp2Reg, Exp2NextReg, Exec, Means, Start;
    DischargeVarsInv(s0, e0, f0);
    DischargeVarsSound(m, s0, e0, f0, lo, r0, w);
    var (s, e) := DischargeVars(s0, e0);
    hide DischargeVars;
    if e.k.VNonreloc? && !HasJumps(e) {
    } else if e.k.VNonreloc? && e.k.reg >= s.nactvar {
      Exp2RegInv(s, e, f0, f0);
      Exp2RegSound(m, s, e, f0, lo, r0, w);
    } else {
      Exp2NextRegSound(m, s, e, f0, lo, r0, w);
    }
  }

  lemma Exp2ValSound(m: Machine, s0: FS, e0: Exp, f0: int, lo: int, r0: Regs, w: Want)
    requires Inv(s0) && ExpInv(s0, e0, f0) && Start(s0, lo, r0) && Means(m, s0, e0, f0, lo, r0, w)
    requires Fits(m, Exp2Val(s0, e0).0)
    ensures var (s, e) := Exp2Val(s0, e0); Means(m, s, e, f0, lo, r0, w) && Start(s, lo, r0)
  {
    hide Exp2AnyReg, DischargeVars, Means, Start;
    if HasJumps(e0) {
      Exp2AnyRegSound(m, s0, e0, f0, lo, r0, w);
    } else {
      DischargeVarsSound(m, s0, e0, f0, lo, r0, w);
    }
  }

  // Moving a constant into the constant table.
  lemma ConstSound(m: Machine, s: FS, e: Exp, f0: int, lo: int, r0: Regs, w: Want)
    requires IsConst(e.k) && Means(m, s, e, f0, lo, r0, w) && Start(s, lo, r0)
    requires AddK(s, ConstValue(e.k)).0.k <= m.k
    ensures var (s', i) := AddK(s, ConstValue(e.k));
            Means(m, s', e.(k := VK(i)), f0, lo, r0, w) && Start(s', lo, r0)
  {
    hide Exec;
  }

  lemma Exp2RKSound(m: Machine, s0: FS, e0: Exp, f0: int, lo: int, r0: Regs, w: Want)
    requires Inv(s0) && ExpInv(s0, e0, f0) && Start(s0, lo, r0) && Means(m, s0, e0, f0, lo, r0, w)
    requires Fits(m, Exp2RK(s0, e0).0)
    ensures var (s, e, _) := Exp2RK(s0, e0); Means(m, s, e, f0, lo, r0, w) && Start(s, lo, r0)
  {
    hide Exp2Val, Exp2AnyReg, Means, Start;
    Exp2ValInv(s0, e0, f0);
    var (s, e) := Exp2Val(s0, e0);
    if IsConst(e.k) && |s.k| <= MAXINDEXRK {
      AddKInv(s, ConstValue(e.k));
      Exp2ValSound(m, s0, e0, f0, lo, r0, w);
      ConstSound(m, s, e, f0, lo, r0, w);
    } else if e.k.VK? && e.k.idx <= MAXINDEXRK {
      Exp2ValSound(m, s0, e0, f0, lo, r0, w);
    } else {
      Exp2AnyRegInv(s, e, f0);
      FitsBefore(m, s, Exp2AnyReg(s, e).0);
      Exp2ValSound(m, s0, e0, f0, lo, r0, w);
      Exp2AnyRegSound(m, s, e, f0, lo, r0, w);
    }
  }

  // ----- the path of a run -----

  // What is wanted of an expression, given how the run stood before its code.
  function Lift(p: Path, q: Outcome): Want {
    match q
    case Fall(r) => (match p case Failed => Err case Broke => Bad case _ => Val(Delivered(p), r))
    case Exit(j, r) => Away(j, r)
    case Broken => Bad
    case _ => Err
  }

  ghost predicate Arrives(m: Machine, s: FS, e: Exp, lo: int, r0: Regs, p: Path) {
    var o := RunOf(m, s, e, lo, r0);
    match p
    case Fell(_, c) => o.Fall? && Arrived(m, s, lo, r0) == c
    case Left(t, c) => o.Exit? && (if t then o.j in e.t else o.j in e.f) && c == Carry(s.code, o.j, o.r)
    case _ => true
  }

  // From where it stood before, the run has gone on along path p.
  ghost predicate Meets(m: Machine, s: FS, e: Exp, f0: int, lo: int, r0: Regs, q: Outcome, p: Path) {
    Means(m, s, e, f0, lo, r0, Lift(p, q)) && (q.Fall? ==> Arrives(m, s, e, lo, r0, p))
  }

  // Nothing is waiting to land, and there is no jump out: a value has been computed.
  lemma ComputedMeets(m: Machine, s: FS, e: Exp, f0: int, lo: int, r0: Regs, q: Outcome, p: Path)
    requires Means(m, s, e, f0, lo, r0, Lift(p, q)) && !HasJumps(e) && s.jpc == []
    requires p.Fell? ==> p.c == None
    requires !p.Left?
    ensures Meets(m, s, e, f0, lo, r0, q, p)
  {
    hide Exec, MainVal;
  }

  lemma DischargedMeets(m: Machine, s: FS, e: Exp, f0: int, lo: int, r0: Regs, q: Outcome, p: Path)
    requires Inv(s) && Usable(s, e, f0) && Start(s, lo, r0) && Meets(m, s, e, f0, lo, r0, q, p)
    ensures var (s', e') := DischargeVars(s, e); Meets(m, s', e', f0, lo, r0, q, Loaded(e, p)) && Start(s', lo, r0)
    ensures var (s', e') := DischargeVars(s, e);
            forall cond :: TurnOf(s', e', cond, Loaded(e, p)) == TurnOf(s, e, cond, p)
  {
    DischargeVarsSound(m, s, e, f0, lo, r0, Lift(p, q));
    if e.k.VUpval? {
      UpvalTurns(s, e, p);
      if q.Fall? { UpvalArrives(m, s, e, f0, lo, r0, q, p); }
    }
    hide Exec, Emit, Inv, Start, Usable, Means, MainVal;
  }

  lemma UpvalTurns(s: FS, e: Exp, p: Path)
    requires Inv(s) && e.k.VUpval?
    ensures var (s', e') := DischargeVars(s, e);
            forall cond :: TurnOf(s', e', cond, Loaded(e, p)) == TurnOf(s, e, cond, p)
  {
    EmitInv(s, OpGetUpval(0, e.k.uv));
    hide Emit;
  }

  lemma UpvalArrives(m: Machine, s: FS, e: Exp, f0: int, lo: int, r0: Regs, q: Outcome, p: Path)
    requires Inv(s) && Usable(s, e, f0) && Start(s, lo, r0) && Meets(m, s, e, f0, lo, r0, q, p) && e.k.VUpval?
    requires q.Fall?
    ensures var (s', e') := DischargeVars(s, e); Arrives(m, s', e', lo, r0, Loaded(e, p))
  {
    hide Exec, Emit, Means, Usable, Inv, MainVal, SameJump;
    StartBound(s, lo, r0);
    RelocRun(m, s, OpGetUpval(0, e.k.uv), e, lo, r0);
    EmitKeeps(s, OpGetUpval(0, e.k.uv));
    DischargeVarsInv(s, e, f0);
    ListsSame(s, DischargeVars(s, e).0, e, f0);
    CarrySame(s.code, DischargeVars(s, e).0.code);
  }

  lemma CarrySame(code: seq<Instr>, code': seq<Instr>)
    ensures forall j, r :: SameJump(code, code', j) ==> Carry(code', j, r) == Carry(code, j, r)
  {
  }

  // ----- conditional jumps on a descriptor -----

  // From registers r, the run turns as t says; the jumps l are those it may leave by.
  ghost predicate Turned(m: Machine, s: FS, l: seq<int>, cond: bool, f0: int, lo: int, r0: Regs, r: Regs, t: Turn) {
    var o := Reach(m, s, lo, r0);
    match t
    case GoesOn(c) => o.Fall? && Agree(r, o.r, f0) && Arrived(m, s, lo, r0) == c
    case Stays(p) =>
      match p
      case Left(truth, c) => truth == cond && o.Exit? && o.j in l && Agree(r, o.r, f0) && c == Carry(s.code, o.j, o.r)
      case Failed => o.Fail?
      case Broke => o.Broken?
      case Fell(_, _) => false
  }

  ghost predicate JumpsOn(m: Machine, s: FS, e: Exp, s1: FS, l: seq<int>, cond: bool, f0: int, lo: int, r0: Regs) {
    var o, o1 := RunOf(m, s, e, lo, r0), Reach(m, s1, lo, r0);
    if o.Fall? then
      match MainVal(m, s, e, o.r)
      case Ok(v) => Turned(m, s1, l, cond, f0, lo, r0, o.r, TurnOf(s, e, cond, Fell(v, Arrived(m, s, lo, r0))))
      case Error => o1.Fail?
      case Crash => o1.Broken?
    else o.Stuck? || o1 == o
  }

  // A constant that leaves always, and with it whatever was about to land on it.
  lemma ConstantJumpSound(m: Machine, s: FS, e: Exp, cond: bool, f0: int, lo: int, r0: Regs)
    requires Inv(s) && 0 <= lo <= |s.code| && AlwaysLeaves(e.k, cond)
    ensures JumpsOn(m, s, e, Jump(s).0, Jump(s).1, cond, f0, lo, r0)
  {
    hide Exec, Inv, Jump;
    JumpFacts(s);
    var n, s1, l := |s.code|, Jump(s).0, Jump(s).1;
    ExecSame(m, s.code, s1.code, n, lo, r0);
    ExecSplit(m, s1.code, n, n + 1, lo, r0);
    ExitPending(m, s.code, n, lo, r0);
    var o := Exec(m, s.code, n, lo, r0);
    if o.Fall? { JumpExec(m, s1.code, o.r); }
  }

  lemma JumpFacts(s: FS)
    requires Inv(s)
    ensures var (s1, l) := Jump(s); var n := |s.code|;
            s1.code == s.code + [OpJmp(NO_JUMP)] && s1.jpc == [] && l == [n] + s.jpc && n in l &&
            (n > 0 ==> !IsTest(s.code[n - 1]))
    ensures forall r :: Carry(Jump(s).0.code, |s.code|, r) == None
    ensures forall j, r :: 0 <= j < |s.code| ==> Carry(Jump(s).0.code, j, r) == Carry(s.code, j, r)
  {
    var n, code := |s.code|, Jump(s).0.code;
    assert n > 0 ==> !IsTest(s.code[n - 1]) && code[n - 1] == s.code[n - 1];
    assert !ControlIsTestSet(code, n);
    forall j | 0 <= j < n
      ensures ControlIsTestSet(code, j) == ControlIsTestSet(s.code, j) && Control(code, j) == Control(s.code, j)
    {
    }
  }

  lemma JumpExec(m: Machine, code: seq<Instr>, r: Regs)
    requires |code| > 0 && Pending(code, |code| - 1) && (|code| > 1 ==> !IsTest(code[|code| - 2]))
    ensures Exec(m, code, |code|, |code| - 1, r) == Exit(|code| - 1, r)
  {
  }

  lemma ComparisonCode(s: FS, e: Exp, f0: int)
    requires Inv(s) && Usable(s, e, f0) && e.k.VJmp?
    ensures var n, s1 := |s.code|, InvertJump(s, e.k.pc);
            n >= 2 && e.k.pc == n - 1 && s.code[n - 2].OpComp? && s.code[n - 1] == OpJmp(NO_JUMP) && s.jpc == [] &&
            s1 == s.(code := s.code[n - 2 := InvertTest(s.code[n - 2])])
  {
  }

  lemma CompJumpSound(m: Machine, s: FS, e: Exp, cond: bool, f0: int, lo: int, r0: Regs)
    requires Inv(s) && Usable(s, e, f0) && e.k.VJmp? && 0 <= lo <= |s.code|
    ensures JumpsOn(m, s, e, if cond then s else InvertJump(s, e.k.pc), [e.k.pc], cond, f0, lo, r0)
  {
    hide Exec, Inv, Usable, InvertJump;
    ComparisonCode(s, e, f0);
    var s1, n := if cond then s else InvertJump(s, e.k.pc), |s.code|;
    ExecSame(m, s.code, s1.code, n - 2, lo, r0);
    ComparisonReach(m, s1.code, lo, r0);
  }

  lemma NotJumpCode(s: FS, e: Exp, cond: bool, f0: int)
    requires Inv(s) && ExpInv(s, e, f0) && e.k.VReloc? && s.code[e.k.pc].OpNot?
    ensures e.k.pc == |s.code| - 1 >= 0 && s.jpc == []
    ensures JumpOnCond(s, e, cond) ==
            CondJump(s.(code := s.code[..e.k.pc]), OpTest(s.code[e.k.pc].b, !cond))
  {
  }

  // `not' before a conditional jump: test its operand for the opposite instead.
  lemma NotJumpSound(m: Machine, s: FS, e: Exp, cond: bool, f0: int, lo: int, r0: Regs)
    requires Inv(s) && ExpInv(s, e, f0) && e.k.VReloc? && s.code[e.k.pc].OpNot? && 0 <= lo <= |s.code|
    ensures JumpsOn(m, s, e, JumpOnCond(s, e, cond).0, JumpOnCond(s, e, cond).1, cond, f0, lo, r0)
  {
    hide Exec, CondJump, JumpOnCond, Inv, ExpInv, JumpedInv, LandsBy, Usable;
    NotJumpCode(s, e, cond, f0);
    var n := |s.code|;
    var s1 := s.(code := s.code[..n - 1]);
    var i := OpTest(s.code[n - 1].b, !cond);
    NotJumpInv(s, e, i, f0);
    ExecSame(m, s.code, s1.code, n - 1, lo, r0);
    if lo < n && !Reach(m, s1, lo, r0).Stuck? {
      CondJumpReach(m, s1, i, lo, r0);
      CondJumpInv(s1, i);
      var o := Reach(m, s1, lo, r0);
      if o.Fall? { TestCarry(s1, i, o.r); }
    } else if lo == n {
      ExecPast(m, s.code, n - 1, lo, r0);
    }
  }

  // What a test and its jump carry.
  lemma TestCarry(s: FS, i: Instr, r: Regs)
    requires Inv(s) && IsTest(i)
    ensures Carry(CondJump(s, i).0.code, |s.code| + 1, r) == if i.OpTestSet? then Some(Get(r, i.b)) else None
  {
    hide CondJump;
    CondJumpInv(s, i);
  }

  lemma ExecPast(m: Machine, code: seq<Instr>, hi: int, pc: int, r: Regs)
    requires hi <= |code| && hi < pc
    ensures Exec(m, code, hi, pc, r).Stuck?
  {
  }

  lemma TestJumpSound(m: Machine, s: FS, e: Exp, cond: bool, f0: int, lo: int, r0: Regs)
    requires Inv(s) && ExpInv(s, e, f0) && Start(s, lo, r0) && !e.k.VJmp? && !e.k.VLocal? && !e.k.VUpval?
    requires !NeverLeaves(e.k, cond) && !AlwaysLeaves(e.k, cond)
    requires !(e.k.VReloc? && s.code[e.k.pc].OpNot?) && JumpOnCond(s, e, cond).0.k <= m.k
    ensures JumpsOn(m, s, e, JumpOnCond(s, e, cond).0, JumpOnCond(s, e, cond).1, cond, f0, lo, r0)
  {
    hide Exec, CondJump, Discharge2AnyReg, JumpOnCond, Inv, Usable, KindInv, Start;
    TestJumpFacts(s, e, cond, f0);
    var (s1, e1) := Discharge2AnyReg(s, e);
    var s2, i := FreeExp(s1, e1), OpTestSet(NO_REG, RegOf(e1), cond);
    if RunOf(m, s, e, lo, r0).Stuck? {
      return;
    }
    CondJumpInv(s2, i);
    AnyRegReach(m, s, e, f0, lo, r0);
    assert Reach(m, s2, lo, r0) == Reach(m, s1, lo, r0);
    StartBound(s, lo, r0);
    if !Reach(m, s2, lo, r0).Stuck? {
      CondJumpReach(m, s2, i, lo, r0);
      var o := Reach(m, s2, lo, r0);
      if o.Fall? { TestCarry(s2, i, o.r); }
    }
  }

  lemma TestJumpFacts(s: FS, e: Exp, cond: bool, f0: int)
    requires Inv(s) && ExpInv(s, e, f0) && !e.k.VJmp? && !(e.k.VReloc? && s.code[e.k.pc].OpNot?)
    ensures var (s1, e1) := Discharge2AnyReg(s, e);
            var s2, i := FreeExp(s1, e1), OpTestSet(NO_REG, RegOf(e1), cond);
            JumpOnCond(s, e, cond) == CondJump(s2, i) && Inv(s2) && s2.code == s1.code && s2.jpc == s1.jpc &&
            s2.k == s1.k &&
            |s.code| <= |s1.code| && e1.k.VNonreloc?
  {
    Discharge2AnyRegInv(s, e, f0);
    hide CondJump, Discharge2AnyReg;
  }

  lemma AnyRegReach(m: Machine, s: FS, e: Exp, f0: int, lo: int, r0: Regs)
    requires Inv(s) && ExpInv(s, e, f0) && Start(s, lo, r0) && !e.k.VJmp? && !e.k.VLocal? && !e.k.VUpval?
    requires Discharge2AnyReg(s, e).0.k <= m.k && !RunOf(m, s, e, lo, r0).Stuck?
    ensures var (s', e') := Discharge2AnyReg(s, e);
            var o, o' := RunOf(m, s, e, lo, r0), Reach(m, s', lo, r0);
            if o.Fall? then
              match MainVal(m, s, e, o.r)
              case Ok(v) => o'.Fall? && Agree(o.r, o'.r, f0) && Get(o'.r, RegOf(e')) == v
              case Error => o'.Fail?
              case Crash => o'.Broken?
            else o' == o
  {
    hide Next;
    if !e.k.VNonreloc? {
      var s1 := ReserveRegs(s, 1);
      assert Inv(s1) && Usable(s1, e, f0) && Start(s1, lo, r0);
      LoadReach(m, s1, e, f0, lo, r0);
      hide Load, Exec;
    }
  }

  ghost predicate Operable(s: FS, e: Exp, f0: int, lo: int, r0: Regs) {
    Inv(s) && ExpInv(s, e, f0) && Start(s, lo, r0) && !e.k.VLocal? && !e.k.VUpval?
  }

  lemma OnCondSound(m: Machine, s: FS, e: Exp, cond: bool, f0: int, lo: int, r0: Regs)
    requires Operable(s, e, f0, lo, r0) && !e.k.VJmp? && JumpOnCond(s, e, cond).0.k <= m.k
    requires !NeverLeaves(e.k, cond) && !AlwaysLeaves(e.k, cond)
    ensures JumpsOn(m, s, e, JumpOnCond(s, e, cond).0, JumpOnCond(s, e, cond).1, cond, f0, lo, r0)
  {
    hide JumpOnCond, JumpsOn, Exec;
    if e.k.VReloc? && s.code[e.k.pc].OpNot? {
      NotJumpSound(m, s, e, cond, f0, lo, r0);
    } else {
      TestJumpSound(m, s, e, cond, f0, lo, r0);
    }
  }

  // A constant that an expression itself denotes is a string, hence true.
  ghost predicate ConstTrue(m: Machine, e: Exp) {
    e.k.VK? ==> 0 <= e.k.idx < |m.k| && m.k[e.k.idx].Str?
  }

  lemma StayHere(m: Machine, s: FS, e: Exp, cond: bool, f0: int, lo: int, r0: Regs)
    requires NeverLeaves(e.k, cond) && ConstTrue(m, e)
    ensures JumpsOn(m, s, e, s, [], cond, f0, lo, r0)
  {
    hide Exec;
  }

  lemma JumpIfFalseSound(m: Machine, s: FS, e: Exp, f0: int, lo: int, r0: Regs)
    requires Operable(s, e, f0, lo, r0) && JumpIfFalse(s, e).0.k <= m.k && ConstTrue(m, e)
    ensures JumpsOn(m, s, e, JumpIfFalse(s, e).0, JumpIfFalse(s, e).1, false, f0, lo, r0)
  {
    hide JumpOnCond, JumpsOn, Jump, InvertJump, Inv, Usable;
    StartBound(s, lo, r0);
    match e.k {
      case VK(_) => StayHere(m, s, e, false, f0, lo, r0);
      case VKNum(_) => StayHere(m, s, e, false, f0, lo, r0);
      case VTrue => StayHere(m, s, e, false, f0, lo, r0);
      case VFalse => ConstantJumpSound(m, s, e, false, f0, lo, r0);
      case VJmp(pc) => CompJumpSound(m, s, e, false, f0, lo, r0);
      case _ => OnCondSound(m, s, e, false, f0, lo, r0);
    }
  }

  lemma JumpIfTrueSound(m: Machine, s: FS, e: Exp, f0: int, lo: int, r0: Regs)
    requires Operable(s, e, f0, lo, r0) && JumpIfTrue(s, e).0.k <= m.k && ConstTrue(m, e)
    ensures JumpsOn(m, s, e, JumpIfTrue(s, e).0, JumpIfTrue(s, e).1, true, f0, lo, r0)
  {
    hide JumpOnCond, JumpsOn, Jump, InvertJump, Inv, Usable;
    StartBound(s, lo, r0);
    match e.k {
      case VNil => StayHere(m, s, e, true, f0, lo, r0);
      case VFalse => StayHere(m, s, e, true, f0, lo, r0);
      case VTrue => ConstantJumpSound(m, s, e, true, f0, lo, r0);
      case VJmp(pc) => CompJumpSound(m, s, e, true, f0, lo, r0);
      case _ => OnCondSound(m, s, e, true, f0, lo, r0);
    }
  }

  // After the left operand of `and' (cond false) or `or' (cond true): the run has left
  // by `list', or goes on here, as t says.
  ghost predicate Branches(m: Machine, s: FS, list: seq<int>, cond: bool, f0: int, lo: int, r0: Regs, q: Outcome,
      t: Turn) {
    var o := Reach(m, s, lo, r0);
    match q
    case Fall(r) => Turned(m, s, list, cond, f0, lo, r0, r, t)
    case Exit(j, _) => o == q && j !in list
    case Fail => o.Fail?
    case Broken => o.Broken?
    case Stuck => false
  }

  lemma GoSound(m: Machine, s: FS, e: Exp, s1: FS, l: seq<int>, cond: bool, f0: int, lo: int, r0: Regs, q: Outcome,
      p: Path)
    requires Meets(m, s, e, f0, lo, r0, q, p) && JumpsOn(m, s, e, s1, l, cond, f0, lo, r0) && !q.Stuck?
    requires GoJumpInv(s, e, s1, l, f0) && ListsInv(s, e)
    ensures var (keep, drop) := if cond then (e.t, e.f) else (e.f, e.t);
            Branches(m, PatchToHere(s1, drop), keep + l, cond, f0, lo, r0, q, TurnOf(s, e, cond, p))
  {
    hide IsFalse, Next, Control;
    ExitPending(m, s.code, Hi(s, e), lo, r0);
    var (keep, drop) := if cond then (e.t, e.f) else (e.f, e.t);
    forall j | j in keep || j in drop ensures SameJump(s.code, s1.code, j) {
      assert Pending(s.code, j) && j !in l;
    }
    CarrySame(s.code, s1.code);
    LeaveList(s, e, s1, l, f0);
    hide Exec, GoJumpInv, Inv, Frame, MainVal, SameJump, Carry;
    LandMore(m, s1, drop, lo, r0);
    LandCarry(m, s1, drop, lo, r0);
    if q.Fall? && p.Fell? {
      var o := RunOf(m, s, e, lo, r0);
      assert MainVal(m, s, e, o.r) == Ok(p.v);
    }
  }

  // What has landed carries the same when more jumps land.
  lemma LandCarry(m: Machine, s: FS, drop: seq<int>, lo: int, r0: Regs)
    ensures var o := Reach(m, s, lo, r0);
            Arrived(m, PatchToHere(s, drop), lo, r0) ==
              if o.Exit? && o.j in drop then Carry(s.code, o.j, o.r) else Arrived(m, s, lo, r0)
  {
    hide Exec;
  }

  lemma LandMore(m: Machine, s: FS, drop: seq<int>, lo: int, r0: Regs)
    ensures Reach(m, PatchToHere(s, drop), lo, r0) == Land(Reach(m, s, lo, r0), drop)
  {
  }

  lemma LeaveList(s: FS, e: Exp, s1: FS, l: seq<int>, f0: int)
    requires GoJumpInv(s, e, s1, l, f0)
    ensures Disjoint(e.f, l) && Disjoint(e.t, l)
    ensures forall j :: j in l ==> j >= |s.code| || j in s.jpc || j in Own(e)
  {
  }

  lemma GoIfTrueSound(m: Machine, s0: FS, e0: Exp, f0: int, lo: int, r0: Regs, q: Outcome, p: Path)
    requires Inv(s0) && ExpInv(s0, e0, f0) && Start(s0, lo, r0) && Meets(m, s0, e0, f0, lo, r0, q, p) && !q.Stuck?
    requires ConstTrue(m, e0) && GoIfTrue(s0, e0).0.k <= m.k
    ensures var (s, e) := GoIfTrue(s0, e0);
            Branches(m, s, e.f, false, f0, lo, r0, q, TurnOf(s0, e0, false, p)) && Start(s, lo, r0)
  {
    hide JumpIfFalse, Meets, Start, JumpsOn, Branches, TurnOf, Loaded;
    DischargeVarsInv(s0, e0, f0);
    DischargedMeets(m, s0, e0, f0, lo, r0, q, p);
    var (s, e) := DischargeVars(s0, e0);
    assert ConstTrue(m, e);
    hide DischargeVars;
    JumpIfFalseInv(s, e, f0);
    var (s1, l) := JumpIfFalse(s, e);
    JumpIfFalseSound(m, s, e, f0, lo, r0);
    GoSound(m, s, e, s1, l, false, f0, lo, r0, q, Loaded(e0, p));
    StartKept(s, PatchToHere(s1, e.t), lo, r0);
  }

  lemma GoIfFalseSound(m: Machine, s0: FS, e0: Exp, f0: int, lo: int, r0: Regs, q: Outcome, p: Path)
    requires Inv(s0) && ExpInv(s0, e0, f0) && Start(s0, lo, r0) && Meets(m, s0, e0, f0, lo, r0, q, p) && !q.Stuck?
    requires ConstTrue(m, e0) && GoIfFalse(s0, e0).0.k <= m.k
    ensures var (s, e) := GoIfFalse(s0, e0);
            Branches(m, s, e.t, true, f0, lo, r0, q, TurnOf(s0, e0, true, p)) && Start(s, lo, r0)
  {
    hide JumpIfTrue, Meets, Start, JumpsOn, Branches, TurnOf, Loaded;
    DischargeVarsInv(s0, e0, f0);
    DischargedMeets(m, s0, e0, f0, lo, r0, q, p);
    var (s, e) := DischargeVars(s0, e0);
    assert ConstTrue(m, e);
    hide DischargeVars;
    JumpIfTrueInv(s, e, f0);
    var (s1, l) := JumpIfTrue(s, e);
    JumpIfTrueSound(m, s, e, f0, lo, r0);
    GoSound(m, s, e, s1, l, true, f0, lo, r0, q, Loaded(e0, p));
    StartKept(s, PatchToHere(s1, e.f), lo, r0);
  }

  // ----- not -----

  // k' in state s' is the negation of e's own value in state s.
  ghost predicate Negates(m: Machine, s: FS, e: Exp, s': FS, k': Kind, f0: int, lo: int, r0: Regs) {
    var o, o' := RunOf(m, s, e, lo, r0), RunOf(m, s', e.(k := k'), lo, r0);
    if o.Fall? then
      match MainVal(m, s, e, o.r)
      case Ok(v) => o'.Fall? && Agree(o.r, o'.r, f0) && MainVal(m, s', e.(k := k'), o'.r) == Ok(Bool(IsFalse(v)))
      case Error => o'.Fail? || (o'.Fall? && MainVal(m, s', e.(k := k'), o'.r) == Error)
      case Crash => o'.Broken? || (o'.Fall? && MainVal(m, s', e.(k := k'), o'.r) == Crash)
    else o.Stuck? || o' == o
  }

  lemma NegateComparison(m: Machine, s: FS, e: Exp, f0: int, lo: int, r0: Regs)
    requires Inv(s) && Usable(s, e, f0) && e.k.VJmp?
    ensures Negates(m, s, e, InvertJump(s, e.k.pc), e.k, f0, lo, r0)
  {
    hide InvertJump, Exec, Inv, Usable;
    ComparisonCode(s, e, f0);
    ExecSame(m, s.code, InvertJump(s, e.k.pc).code, |s.code| - 2, lo, r0);
  }

  lemma NegateValue(m: Machine, s: FS, e: Exp, f0: int, lo: int, r0: Regs)
    requires Operable(s, e, f0, lo, r0) && !e.k.VJmp?
    requires var (s1, e1) := Discharge2AnyReg(s, e); s1.k <= m.k
    ensures var (s1, e1) := Discharge2AnyReg(s, e); var s2 := FreeExp(s1, e1);
            Negates(m, s, e, Emit(s2, OpNot(0, RegOf(e1))), VReloc(|s2.code|), f0, lo, r0)
  {
    hide Discharge2AnyReg, Exec, Emit, Inv, Operable;
    if !RunOf(m, s, e, lo, r0).Stuck? {
      NegateReady(m, s, e, f0, lo, r0);
      var (s1, e1) := Discharge2AnyReg(s, e);
      RelocRun(m, FreeExp(s1, e1), OpNot(0, RegOf(e1)), e, lo, r0);
    }
  }

  lemma NegateReady(m: Machine, s: FS, e: Exp, f0: int, lo: int, r0: Regs)
    requires Operable(s, e, f0, lo, r0) && !e.k.VJmp?
    requires var (s1, e1) := Discharge2AnyReg(s, e); s1.k <= m.k
    requires !RunOf(m, s, e, lo, r0).Stuck?
    ensures var (s1, e1) := Discharge2AnyReg(s, e); var s2 := FreeExp(s1, e1);
            var o, o' := RunOf(m, s, e, lo, r0), Reach(m, s2, lo, r0);
            Inv(s2) && 0 <= lo <= |s2.code| &&
            if o.Fall? then
              match MainVal(m, s, e, o.r)
              case Ok(v) => o'.Fall? && Agree(o.r, o'.r, f0) && Get(o'.r, RegOf(e1)) == v
              case Error => o'.Fail?
              case Crash => o'.Broken?
            else o' == o
  {
    hide Discharge2AnyReg, Exec, MainVal;
    AnyRegReach(m, s, e, f0, lo, r0);
    Discharge2AnyRegInv(s, e, f0);
  }

  lemma NegateSound(m: Machine, s: FS, e: Exp, f0: int, lo: int, r0: Regs)
    requires Operable(s, e, f0, lo, r0) && ConstTrue(m, e)
    requires Negate(s, e).0.k <= m.k
    ensures var (s', k') := Negate(s, e); Negates(m, s, e, s', k', f0, lo, r0)
  {
    match e.k {
      case VNil => case VFalse => case VK(_) => case VKNum(_) => case VTrue =>
      case VJmp(pc) => NegateComparison(m, s, e, f0, lo, r0);
      case _ =>
        hide Negates, Discharge2AnyReg, Emit;
        NegateValue(m, s, e, f0, lo, r0);
    }
  }

  // RemoveValues leaves the run alone, and makes every listed exit a plain boolean.
  lemma RemovedSound(m: Machine, s: FS, e: Exp, s1: FS, k1: Kind, s2: FS, f0: int, lo: int, r0: Regs, q: Outcome,
      p: Path)
    requires Meets(m, s, e, f0, lo, r0, q, p) && Negates(m, s, e, s1, k1, f0, lo, r0)
    requires Inv(s1) && KindInv(s1, e.(k := k1), f0) && ListsInv(s1, e) && Own(e.(k := k1)) == Own(e)
    requires if NoCode(e.k) then s1 == s else s1.jpc == []
    requires s2 == s1.(code := s2.code) && Removed(s1.code, s2.code, e.t + e.f)
    ensures Meets(m, s2, Exp(k1, e.f, e.t), f0, lo, r0, q, UnaryPath(m.ops, NotOpr, s, e, p))
  {
    var e1, e2 := e.(k := k1), Exp(k1, e.f, e.t);
    hide Exec, Inv, KindInv;
    RemovedRun(m, s1, e1, s2, e2, f0, lo, r0);
    RemovedMain(m, s1, e1, s2, e2, f0);
    RemovedArrival(m, s1, e1, s2, lo, r0);
    hide MainVal, Removed;
  }

  lemma RemovedArrival(m: Machine, s1: FS, e: Exp, s2: FS, lo: int, r0: Regs)
    requires Inv(s1) && ListsInv(s1, e) && s2 == s1.(code := s2.code) && Removed(s1.code, s2.code, e.t + e.f)
    ensures Arrived(m, s2, lo, r0) == Arrived(m, s1, lo, r0)
  {
    RemoveExec(m, s1.code, s2.code, e.t + e.f, |s1.code|, lo, r0);
    var o := Exec(m, s1.code, |s1.code|, lo, r0);
    hide Exec;
    if o.Exit? && o.j in s1.jpc {
      assert Pending(s1.code, o.j);
      RemovedJumps(s1.code, s2.code, e.t + e.f, o.j);
    }
  }

  lemma RemovedRun(m: Machine, s1: FS, e1: Exp, s2: FS, e2: Exp, f0: int, lo: int, r0: Regs)
    requires Inv(s1) && ListsInv(s1, e1) && e2.k == e1.k
    requires s2 == s1.(code := s2.code) && Removed(s1.code, s2.code, e1.t + e1.f)
    ensures RunOf(m, s2, e2, lo, r0) == RunOf(m, s1, e1, lo, r0)
    ensures forall j :: j in e1.t || j in e1.f ==> !ControlIsTestSet(s2.code, j)
  {
    RemoveExec(m, s1.code, s2.code, e1.t + e1.f, Hi(s1, e1), lo, r0);
    forall j | j in e1.t || j in e1.f ensures !ControlIsTestSet(s2.code, j) {
      assert Pending(s1.code, j);
      assert s2.code[j] == RemovedAt(s1.code, j, e1.t + e1.f);
      if j > 0 { assert s2.code[j - 1] == RemovedAt(s1.code, j - 1, e1.t + e1.f); }
    }
  }

  lemma RemovedMain(m: Machine, s1: FS, e1: Exp, s2: FS, e2: Exp, f0: int)
    requires Inv(s1) && KindInv(s1, e1, f0) && ListsInv(s1, e1)
    requires s2 == s1.(code := s2.code) && Removed(s1.code, s2.code, e1.t + e1.f) && e2.k == e1.k
    ensures forall r :: MainVal(m, s2, e2, r) == MainVal(m, s1, e1, r)
  {
    var n := |s1.code|;
    if n >= 1 { assert s2.code[n - 1] == RemovedAt(s1.code, n - 1, e1.t + e1.f); }
    if n >= 2 { assert s2.code[n - 2] == RemovedAt(s1.code, n - 2, e1.t + e1.f); }
  }

  lemma NegateKind(s: FS, e: Exp)
    requires !e.k.VLocal? && !e.k.VUpval?
    ensures Own(e.(k := Negate(s, e).1)) == Own(e)
  {
  }

  lemma NegatedState(s: FS, e: Exp, f0: int)
    requires Inv(s) && ExpInv(s, e, f0) && !e.k.VLocal? && !e.k.VUpval?
    ensures var (s1, k1) := Negate(s, e); if NoCode(e.k) then s1 == s else s1.jpc == []
  {
    NegateInv(s, e, f0);
    hide Discharge2AnyReg, Emit;
  }

  lemma CodeNotSound(m: Machine, s0: FS, e0: Exp, f0: int, lo: int, r0: Regs, q: Outcome, p: Path)
    requires Inv(s0) && ExpInv(s0, e0, f0) && Start(s0, lo, r0) && Meets(m, s0, e0, f0, lo, r0, q, p)
    requires ConstTrue(m, e0)
    requires Fits(m, CodeNot(s0, e0).0)
    ensures var (s, e) := CodeNot(s0, e0);
            Meets(m, s, e, f0, lo, r0, q, UnaryPath(m.ops, NotOpr, s0, e0, p)) && Start(s, lo, r0)
  {
    hide Meets, Negates, Negate, Exec, Start, UnaryPath, Loaded;
    DischargeVarsInv(s0, e0, f0);
    DischargedMeets(m, s0, e0, f0, lo, r0, q, p);
    NotDischarged(m.ops, s0, e0, p);
    CodeNotInv(s0, e0, f0);
    StartKept(s0, CodeNot(s0, e0).0, lo, r0);
    var (s, e) := DischargeVars(s0, e0);
    assert ConstTrue(m, e);
    hide DischargeVars;
    NegateInv(s, e, f0);
    NegatedState(s, e, f0);
    var (s1, k1) := Negate(s, e);
    NegateSound(m, s, e, f0, lo, r0);
    NegateKind(s, e);
    RemoveTwice(s1.code, e.t, e.f);
    RemovedSound(m, s, e, s1, k1, CodeNot(s0, e0).0, f0, lo, r0, q, Loaded(e0, p));
  }

  lemma NotDischarged(ops: Ops, s: FS, e: Exp, p: Path)
    ensures var (s', e') := DischargeVars(s, e);
            UnaryPath(ops, NotOpr, s', e', Loaded(e, p)) == UnaryPath(ops, NotOpr, s, e, p)
  {
    hide Emit;
  }

  // ----- arithmetic, concatenation, comparison -----

  function ResultWant(w: Want, v: Option<Value>): Want {
    if w.Val? then (if v.Some? then Val(v.value, w.r) else Err) else w
  }

  // The run has reached here, with registers that agree with the wanted ones below f.
  ghost predicate Here(m: Machine, s: FS, f: int, lo: int, r0: Regs, w: Want) {
    var o := Reach(m, s, lo, r0);
    match w
    case Err => o.Fail?
    case Bad => o.Broken?
    case Away(j, r) => o == Exit(j, r)
    case Val(v, r) => o.Fall? && Agree(r, o.r, f)
  }

  // An operand that is simply there.
  lemma SimpleHere(m: Machine, s: FS, e: Exp, f: int, lo: int, r0: Regs, w: Want)
    requires Simple(e) && Means(m, s, e, f, lo, r0, w) && (e.k.VK? ==> 0 <= e.k.idx < |m.k|)
    ensures Here(m, s, f, lo, r0, w)
    ensures w.Val? ==> MainVal(m, s, e, Reach(m, s, lo, r0).r) == Ok(w.v)
  {
  }

  lemma FirstOperandSound(m: Machine, s: FS, e: Exp, f0: int, f1: int, lo: int, r0: Regs, w: Want)
    requires Inv(s) && Waiting(s, e, f0, f1) && f1 <= s.freereg && Start(s, lo, r0)
    requires Here(m, s, s.freereg, lo, r0, w) && Fits(m, Exp2RK(s, e).0)
    ensures var (s', _, o) := Exp2RK(s, e);
            Here(m, s', s.freereg, lo, r0, w) && Start(s', lo, r0) &&
            (w.Val? ==> RKValue(m, o, Reach(m, s', lo, r0).r) == MainVal(m, s, e, Reach(m, s, lo, r0).r))
  {
    hide Exec, Inv, Start, Means;
    if e.k.VKNum? {
      hide Exp2RK, Waiting, Here, RKValue;
      NumeralSound(m, s, e, f0, f1, lo, r0, w);
    } else {
      hide Here;
      FirstOperandInv(s, e, f0, f1);
    }
  }

  lemma NumeralSound(m: Machine, s: FS, e: Exp, f0: int, f1: int, lo: int, r0: Regs, w: Want)
    requires Inv(s) && Waiting(s, e, f0, f1) && f1 <= s.freereg && Start(s, lo, r0) && e.k.VKNum?
    requires Here(m, s, s.freereg, lo, r0, w) && Fits(m, Exp2RK(s, e).0)
    ensures var (s', _, o) := Exp2RK(s, e);
            Here(m, s', s.freereg, lo, r0, w) && Start(s', lo, r0) &&
            (w.Val? ==> RKValue(m, o, Reach(m, s', lo, r0).r) == MainVal(m, s, e, Reach(m, s, lo, r0).r))
  {
    hide Exec, Inv, Means, Start, Exp2RK;
    var w1 := if w.Val? then Val(Num(e.k.nval), w.r) else w;
    NumeralMeans(m, s, e, f0, f1, lo, r0, w, w1);
    Exp2RKInv(s, e, s.freereg);
    Exp2RKSound(m, s, e, s.freereg, lo, r0, w1);
    var (s', e', o) := Exp2RK(s, e);
    SimpleHere(m, s', e', s.freereg, lo, r0, w1);
  }

  lemma NumeralMeans(m: Machine, s: FS, e: Exp, f0: int, f1: int, lo: int, r0: Regs, w: Want, w1: Want)
    requires Inv(s) && Waiting(s, e, f0, f1) && f1 <= s.freereg && e.k.VKNum? && Here(m, s, s.freereg, lo, r0, w)
    requires w1 == if w.Val? then Val(Num(e.k.nval), w.r) else w
    ensures ExpInv(s, e, s.freereg) && Means(m, s, e, s.freereg, lo, r0, w1)
  {
    hide Exec;
  }

  // The instruction computes the operator from operands that are simply there.
  lemma EmitSound(m: Machine, s: FS, i: Instr, e: Exp, f0: int, lo: int, r0: Regs, w: Want, v: Option<Value>)
    requires Inv(s) && 0 <= lo <= |s.code| && IsValueInstr(i) && !HasJumps(e)
    requires Here(m, s, f0, lo, r0, w)
    requires w.Val? ==> ValueOf(m, i, Reach(m, s, lo, r0).r) == FromOption(v)
    ensures Means(m, Emit(s, i), e.(k := VReloc(|s.code|)), f0, lo, r0, ResultWant(w, v))
  {
    RelocRun(m, s, i, e, lo, r0);
    hide Exec, Emit, Inv;
  }

  lemma FoldSound(m: Machine, s: FS, op: ArithOp, e1: Exp, e2: Exp, f0: int, f1: int, lo: int, r0: Regs, w: Want,
      v1: Value)
    requires Waiting(s, e1, f0, f1) && Means(m, s, e2, f1, lo, r0, w) && ConstFolding(m.ops, op, e1, e2).Some?
    requires w.Val? ==> MainVal(m, s, e1, w.r) == Ok(v1)
    ensures Means(m, s, e1.(k := VKNum(ConstFolding(m.ops, op, e1, e2).value)), f0, lo, r0,
                  ResultWant(w, if w.Val? then Arith(m.ops, op, v1, w.v) else None))
  {
    hide Exec;
  }

  // What the operands are once they are ready, whatever the run.
  lemma OperandsShape(s: FS, e1: Exp, e2: Exp, f0: int, f1: int)
    requires Inv(s) && Waiting(s, e1, f0, f1) && ExpInv(s, e2, f1)
    ensures var (s1, e2', o2) := Exp2RK(s, e2);
            Inv(s1) && Waiting(s1, e1, f0, f1) && Operand(s1, e2', o2) && ExpInv(s1, e2', f1) && Simple(e2') &&
            0 <= s1.nactvar <= f1 <= s1.freereg
    ensures var (s1, e2', o2) := Exp2RK(s, e2); var (s2, e1', o1) := Exp2RK(s1, e1);
            Inv(s2) && TwoOperands(s2, e1', e2', f0) && Operand(s2, e1', o1) && Operand(s2, e2', o2) &&
            Grows(s1, s2)
  {
    hide Exp2RK, Inv, TwoOperands;
    var (s1, e2', o2) := Exp2RK(s, e2);
    Exp2RKInv(s, e2, f1);
    WaitingGrows(s, s1, Own(e2), e1, f0, f1);
    RegsInUse(s1, e2', f1);
    FirstOperandInv(s1, e1, f0, f1);
    var (s2, e1', o1) := Exp2RK(s1, e1);
    TwoReady(s1, e1, e2', o2, s2, e1', o1, f0, f1);
  }

  // Both operands in place: the second is compiled, then the first if it was a numeral.
  lemma OperandsSound(m: Machine, s: FS, e1: Exp, e2: Exp, f0: int, f1: int, lo: int, r0: Regs, w: Want, v1: Value)
    requires Inv(s) && Waiting(s, e1, f0, f1) && ExpInv(s, e2, f1) && Start(s, lo, r0) && Means(m, s, e2, f1, lo, r0, w)
    requires w.Val? ==> MainVal(m, s, e1, w.r) == Ok(v1)
    requires var s1 := Exp2RK(s, e2).0; Fits(m, Exp2RK(s1, e1).0)
    ensures var (s1, e2', o2) := Exp2RK(s, e2); var (s2, e1', o1) := Exp2RK(s1, e1);
            Inv(s2) && TwoOperands(s2, e1', e2', f0) && Operand(s2, e1', o1) && Operand(s2, e2', o2) &&
            Start(s2, lo, r0) && Here(m, s2, f1, lo, r0, w) &&
            (w.Val? ==> var r := Reach(m, s2, lo, r0).r; RKValue(m, o1, r) == Ok(v1) && RKValue(m, o2, r) == Ok(w.v))
  {
    hide Exec, Means, Start, Exp2RK, Inv, TwoOperands;
    var (s1, e2', o2) := Exp2RK(s, e2);
    var (s2, e1', o1) := Exp2RK(s1, e1);
    OperandsShape(s, e1, e2, f0, f1);
    FitsBefore(m, s1, s2);
    Exp2RKSound(m, s, e2, f1, lo, r0, w);
    SimpleHere(m, s1, e2', f1, lo, r0, w);
    var w1 := At(m, s1, lo, r0, w);
    FirstOperandSound(m, s1, e1, f0, f1, lo, r0, w1);
    TwoValues(m, s1, e1, e2', o1, o2, f0, f1, s2, lo, r0, w, w1, v1);
  }

  lemma CodeArithSound(m: Machine, s: FS, op: ArithOp, e1: Exp, e2: Exp, f0: int, f1: int, lo: int, r0: Regs, w: Want,
      v1: Value)
    requires Inv(s) && Waiting(s, e1, f0, f1) && ExpInv(s, e2, f1) && Start(s, lo, r0) && Means(m, s, e2, f1, lo, r0, w)
    requires w.Val? ==> MainVal(m, s, e1, w.r) == Ok(v1)
    requires Fits(m, CodeArith(m.ops, s, op, e1, e2).0)
    ensures var (s', e') := CodeArith(m.ops, s, op, e1, e2);
            Means(m, s', e', f0, lo, r0, ResultWant(w, if w.Val? then Arith(m.ops, op, v1, w.v) else None))
  {
    hide Exec, Means, Exp2RK, Inv, ExpInv, Emit, FreeBoth, ConstFolding, Start, Waiting;
    if ConstFolding(m.ops, op, e1, e2).Some? {
      FoldSound(m, s, op, e1, e2, f0, f1, lo, r0, w, v1);
    } else {
      ArithRunSound(m, s, op, e1, e2, f0, f1, lo, r0, w, v1);
    }
  }

  lemma ArithRunSound(m: Machine, s: FS, op: ArithOp, e1: Exp, e2: Exp, f0: int, f1: int, lo: int, r0: Regs, w: Want,
      v1: Value)
    requires Inv(s) && Waiting(s, e1, f0, f1) && ExpInv(s, e2, f1) && Start(s, lo, r0) && Means(m, s, e2, f1, lo, r0, w)
    requires w.Val? ==> MainVal(m, s, e1, w.r) == Ok(v1)
    requires Fits(m, CodeArith(m.ops, s, op, e1, e2).0) && ConstFolding(m.ops, op, e1, e2).None?
    ensures var (s', e') := CodeArith(m.ops, s, op, e1, e2);
            Means(m, s', e', f0, lo, r0, ResultWant(w, if w.Val? then Arith(m.ops, op, v1, w.v) else None))
  {
    hide Exec, Means, Exp2RK, ConstFolding, Inv, ExpInv, Waiting, Start, FreeBoth, Emit;
    var v := if w.Val? then Arith(m.ops, op, v1, w.v) else None;
    var (s1, e2', o2) := Exp2RK(s, e2);
    var (s2, e1', o1) := Exp2RK(s1, e1);
    var s3 := s2.(freereg := f0);
    ArithFits(m, s, op, e1, e2);
    OperandsSound(m, s, e1, e2, f0, f1, lo, r0, w, v1);
    FreeBothRegs(s2, e1', e2', o1, o2, f0);
    assert Here(m, s3, f0, lo, r0, w) &&
           Reach(m, s3, lo, r0) == Reach(m, s2, lo, r0) by { LessHeld(m, s, s2, s3, e1, f0, f1, lo, r0, w); }
    SameStart(s2, s3, lo, r0);
    StartBound(s3, lo, r0);
    EmitSound(m, s3, OpArith(op, 0, o1, o2), e1', f0, lo, r0, w, v);
  }

  lemma ArithFits(m: Machine, s: FS, op: ArithOp, e1: Exp, e2: Exp)
    requires Fits(m, CodeArith(m.ops, s, op, e1, e2).0) && ConstFolding(m.ops, op, e1, e2).None?
    ensures var (s1, e2', o2) := Exp2RK(s, e2); Fits(m, Exp2RK(s1, e1).0)
  {
    hide Exp2RK, ConstFolding, PatchListAux;
  }

  lemma LessHeld(m: Machine, s: FS, s2: FS, s3: FS, e: Exp, f0: int, f1: int, lo: int, r0: Regs, w: Want)
    requires Waiting(s, e, f0, f1) && Here(m, s2, f1, lo, r0, w) && s3 == s2.(freereg := f0)
    ensures Here(m, s3, f0, lo, r0, w) && Reach(m, s3, lo, r0) == Reach(m, s2, lo, r0)
  {
    hide Exec;
  }

  // The same arrival, with the registers exactly as they are.
  function At(m: Machine, s: FS, lo: int, r0: Regs, w: Want): Want {
    var o := Reach(m, s, lo, r0);
    if w.Val? && o.Fall? then Val(w.v, o.r) else w
  }

  lemma SameStart(s: FS, s': FS, lo: int, r0: Regs)
    requires Start(s, lo, r0) && s'.code == s.code && s'.lasttarget == s.lasttarget && s'.nactvar == s.nactvar
    ensures Start(s', lo, r0)
  {
  }

  lemma TwoValues(m: Machine, s1: FS, e1: Exp, e2: Exp, o1: RK, o2: RK, f0: int, f1: int, s2: FS,
                  lo: int, r0: Regs, w: Want, w1: Want, v1: Value)
    requires 0 <= s1.nactvar && Waiting(s1, e1, f0, f1) && Operand(s1, e2, o2) && ExpInv(s1, e2, f1)
    requires Here(m, s1, f1, lo, r0, w) && w1 == At(m, s1, lo, r0, w)
    requires w.Val? ==> MainVal(m, s1, e2, Reach(m, s1, lo, r0).r) == Ok(w.v) && MainVal(m, s1, e1, w.r) == Ok(v1)
    requires Here(m, s2, s1.freereg, lo, r0, w1)
    requires w1.Val? ==> RKValue(m, o1, Reach(m, s2, lo, r0).r) == MainVal(m, s1, e1, Reach(m, s1, lo, r0).r)
    ensures Here(m, s2, f1, lo, r0, w)
    ensures w.Val? ==> var r := Reach(m, s2, lo, r0).r; RKValue(m, o1, r) == Ok(v1) && RKValue(m, o2, r) == Ok(w.v)
  {
    hide Exec, Reach;
    if w.Val? {
      var r1, r2 := Reach(m, s1, lo, r0).r, Reach(m, s2, lo, r0).r;
      assert e1.k.VNonreloc? ==> Get(w.r, e1.k.reg) == Get(r1, e1.k.reg) == Get(r2, e1.k.reg);
      assert o2.R? ==> Get(r1, o2.reg) == Get(r2, o2.reg);
    }
  }

  // The operand is computed and the instruction takes it from a register.
  lemma UnaryRunSound(m: Machine, s: FS, op: UnOpr, e: Exp, f0: int, lo: int, r0: Regs, w: Want)
    requires Inv(s) && ExpInv(s, e, f0) && Start(s, lo, r0) && Means(m, s, e, f0, lo, r0, w) && !op.NotOpr?
    requires !UnaryFolds(m.ops, op, e) && (op.LenOpr? ==> e.k.VNonreloc? && !HasJumps(e))
    requires !e.k.VK? && Fits(m, CodeUnary(m.ops, s, op, e).0)
    ensures var (s', e') := CodeUnary(m.ops, s, op, e);
            e'.k.VReloc? && !HasJumps(e') && s'.jpc == [] &&
            Means(m, s', e', f0, lo, r0,
                  if ConstantOperand(s, e) && !op.LenOpr? then BrokenWant(w)
                  else ResultWant(w, if w.Val? then EvalUnary(m.ops, op, w.v) else None))
  {
    hide Exec, Exp2RK, Emit, Inv, Usable, Start, Means;
    var v := if w.Val? then EvalUnary(m.ops, op, w.v) else None;
    var (s1, e1, o1) := Exp2RK(s, e);
    var s2 := FreeExp(s1, e1);
    var i := if op.MinusOpr? then OpUnm(0, o1)
             else if op.BNotOpr? then OpBNot(0, o1)
             else OpLen(0, RegOf(e1));
    EmitKeeps(s2, i);
    UnaryOperand(m, s, e, f0, lo, r0, w);
    OperandPlace(s, e);
    assert op.LenOpr? ==> o1.R? by { Exp2RKNonreloc(s, e); }
    assert Reach(m, s2, lo, r0) == Reach(m, s1, lo, r0);
    if ConstantOperand(s, e) && !op.LenOpr? {
      EmitBroken(m, s2, i, e1, f0, lo, r0, w);
    } else {
      EmitSound(m, s2, i, e1, f0, lo, r0, w, v);
    }
  }

  predicate UnaryFolds(ops: Ops, op: UnOpr, e: Exp) {
    IsNumeral(e) && (op.BNotOpr? || (op.MinusOpr? && !ops.isNaN(ops.unm(e.k.nval))))
  }

  function BrokenWant(w: Want): Want {
    if w.Val? then Bad else w
  }

  // An operand other than a string ends in the constant table exactly if it is a constant
  // and there is room.
  lemma OperandPlace(s: FS, e: Exp)
    requires !e.k.VK?
    ensures Exp2RK(s, e).2.K? <==> ConstantOperand(s, e)
  {
    hide Discharge2Reg, Exp2RegLists, Emit;
  }

  lemma EmitBroken(m: Machine, s: FS, i: Instr, e: Exp, f0: int, lo: int, r0: Regs, w: Want)
    requires Inv(s) && 0 <= lo <= |s.code| && IsValueInstr(i) && !HasJumps(e)
    requires Here(m, s, f0, lo, r0, w)
    requires forall r :: ValueOf(m, i, r) == Crash
    ensures Means(m, Emit(s, i), e.(k := VReloc(|s.code|)), f0, lo, r0, BrokenWant(w))
  {
    RelocRun(m, s, i, e, lo, r0);
    hide Exec, Emit, Inv;
  }

  lemma Exp2RKNonreloc(s: FS, e: Exp)
    ensures e.k.VNonreloc? && !HasJumps(e) ==> Exp2RK(s, e) == (s, e, R(e.k.reg))
  {
  }

  lemma UnaryOperand(m: Machine, s: FS, e: Exp, f0: int, lo: int, r0: Regs, w: Want)
    requires Inv(s) && ExpInv(s, e, f0) && Start(s, lo, r0) && Means(m, s, e, f0, lo, r0, w)
    requires Fits(m, Exp2RK(s, e).0)
    ensures var (s1, e1, o1) := Exp2RK(s, e);
            Operand(s1, e1, o1) && Here(m, s1, f0, lo, r0, w) && 0 <= lo <= |s1.code| &&
            Inv(FreeExp(s1, e1)) &&
            (w.Val? ==> RKValue(m, o1, Reach(m, s1, lo, r0).r) == Ok(w.v))
  {
    hide Exec, Exp2RK, Means;
    Exp2RKInv(s, e, f0);
    Exp2RKSound(m, s, e, f0, lo, r0, w);
    var (s1, e1, o1) := Exp2RK(s, e);
    SimpleHere(m, s1, e1, f0, lo, r0, w);
  }

  lemma CompValue(m: Machine, rel: Relation, o1: RK, o2: RK, r: Regs, v1: Value, v2: Value)
    requires RKValue(m, o1, r) == Ok(v1) && RKValue(m, o2, r) == Ok(v2)
    ensures var taken := TakesJump(m, CompInstr(rel, o1, o2), r);
            match EvalComp(m.ops, rel, v1, v2)
            case Some(v) => taken.Ok? && v == Bool(taken.v)
            case None => taken.Error?
  {
  }

  // The run up to a comparison just emitted.
  lemma CompRun(m: Machine, s: FS, i: Instr, e: Exp, lo: int, r0: Regs)
    requires Inv(s) && 0 <= lo <= |s.code| && i.OpComp?
    ensures var (s', l) := CondJump(s, i); var e' := e.(k := VJmp(l[0]));
            |l| == 1 && l[0] == |s.code| + 1 && RunOf(m, s', e', lo, r0) == Reach(m, s, lo, r0) &&
            forall r :: MainVal(m, s', e', r) ==
              match TakesJump(m, i, r) case Ok(b) => Ok(Bool(b)) case Error => Error case Crash => Crash
  {
    EmitExec(m, s, i, lo, r0);
    CondJumpInv(s, i);
    var n, s1, s' := |s.code|, Emit(s, i), CondJump(s, i).0;
    assert s'.code == s1.code + [OpJmp(NO_JUMP)] && |s1.code| == n + 1;
    hide Exec, Emit, Inv;
    ExecSame(m, s1.code, s'.code, n, lo, r0);
  }

  lemma CodeCompSound(m: Machine, s: FS, rel: Relation, e1: Exp, e2: Exp, f0: int, f1: int, lo: int, r0: Regs, w: Want,
      v1: Value)
    requires Inv(s) && Waiting(s, e1, f0, f1) && ExpInv(s, e2, f1) && Start(s, lo, r0) && Means(m, s, e2, f1, lo, r0, w)
    requires !e1.k.VKNum? && (w.Val? ==> MainVal(m, s, e1, w.r) == Ok(v1))
    requires Fits(m, CodeComp(s, rel, e1, e2).0)
    ensures var (s', e') := CodeComp(s, rel, e1, e2);
            Means(m, s', e', f0, lo, r0, ResultWant(w, if w.Val? then EvalComp(m.ops, rel, v1, w.v) else None))
  {
    hide Exec, Exp2RK, CondJump, Inv, Start, Means;
    CompOperands(m, s, e1, e2, f0, f1, lo, r0, w, v1, rel);
    var o1 := Exp2RK(s, e1).2;
    var (s2, e2', o2) := Exp2RK(s, e2);
    var s3, i := s2.(freereg := f0), CompInstr(rel, o1, o2);
    CompRun(m, s3, i, e1, lo, r0);
    assert Reach(m, s3, lo, r0) == Reach(m, s2, lo, r0);
    ExitPending(m, s2.code, |s2.code|, lo, r0);
    if w.Val? {
      CompValue(m, rel, o1, o2, Reach(m, s2, lo, r0).r, v1, w.v);
    }
    CompMeans(m, CondJump(s3, i).0, e1.(k := VJmp(CondJump(s3, i).1[0])), f0, lo, r0, w,
              if w.Val? then EvalComp(m.ops, rel, v1, w.v) else None);
  }

  lemma CompOperands(m: Machine, s: FS, e1: Exp, e2: Exp, f0: int, f1: int, lo: int, r0: Regs, w: Want, v1: Value,
      rel: Relation)
    requires Inv(s) && Waiting(s, e1, f0, f1) && ExpInv(s, e2, f1) && Start(s, lo, r0) && Means(m, s, e2, f1, lo, r0, w)
    requires !e1.k.VKNum? && (w.Val? ==> MainVal(m, s, e1, w.r) == Ok(v1))
    requires Fits(m, CodeComp(s, rel, e1, e2).0)
    ensures var o1 := Exp2RK(s, e1).2; var (s2, e2', o2) := Exp2RK(s, e2);
            var s3 := s2.(freereg := f0);
            Inv(s3) && 0 <= lo <= |s2.code| && Here(m, s2, f1, lo, r0, w) &&
            CodeComp(s, rel, e1, e2) ==
              (CondJump(s3, CompInstr(rel, o1, o2)).0, e1.(k := VJmp(CondJump(s3, CompInstr(rel, o1, o2)).1[0]))) &&
            (w.Val? ==> var r := Reach(m, s2, lo, r0).r; RKValue(m, o1, r) == Ok(v1) && RKValue(m, o2, r) == Ok(w.v))
  {
    hide Exec, Means, Exp2RK, TakesJump, Own, Emit, HasJumps, MainVal, Usable, CondJump, KindInv, Pending,
      PendingList;
    FirstOperandInv(s, e1, f0, f1);
    var o1 := Exp2RK(s, e1).2;
    Exp2RKInv(s, e2, f1);
    var (s2, e2', o2) := Exp2RK(s, e2);
    FirstOperandInv(s2, e1, f0, f1);
    assert FreeExp(FreeExp(s2, e2'), e1) == s2.(freereg := f0);
    CondJumpInv(s2.(freereg := f0), CompInstr(rel, o1, o2));
    assert Fits(m, s2) by { CondJumpKeeps(s2.(freereg := f0), CompInstr(rel, o1, o2)); }
    OperandsSound(m, s, e1, e2, f0, f1, lo, r0, w, v1);
  }

  lemma CondJumpKeeps(s: FS, i: Instr)
    ensures CondJump(s, i).0.k == s.k && CondJump(s, i).0.overflow == s.overflow
  {
  }

  lemma CompMeans(m: Machine, s: FS, e: Exp, f0: int, lo: int, r0: Regs, w: Want, v: Option<Value>)
    requires e.k.VJmp? && !HasJumps(e)
    requires var o := RunOf(m, s, e, lo, r0);
             match w
             case Err => o.Fail?
             case Bad => o.Broken?
             case Away(j, r) => o == Exit(j, r) && j != e.k.pc
             case Val(_, r) => o.Fall? && Agree(r, o.r, f0) && MainVal(m, s, e, o.r) == FromOption(v)
    ensures Means(m, s, e, f0, lo, r0, ResultWant(w, v))
  {
    hide Exec;
  }

  // a .. (b .. c): the inner concatenation takes one more register in front.
  lemma JoinConcatSound(m: Machine, s: FS, e1: Exp, e2: Exp, f0: int, lo: int, r0: Regs, w: Want, v1: Value)
    requires Inv(s) && ExpInv(s, e2, f0 + 1) && e2.k.VReloc? && s.code[e2.k.pc].OpConcat? && !HasJumps(e2)
    requires e1 == Exp(VNonreloc(f0), [], []) && Means(m, s, e2, f0 + 1, lo, r0, w) && s.nactvar <= f0
    requires w.Val? ==> Get(w.r, f0) == v1
    ensures var prev := s.code[e2.k.pc];
            var s' := s.(code := s.code[e2.k.pc := OpConcat(prev.a, f0, prev.c)], freereg := f0);
            Means(m, s', e1.(k := e2.k), f0, lo, r0, ResultWant(w, if w.Val? then m.ops.concat(v1, w.v) else None))
  {
    hide Exec, Inv, ExpInv;
    JoinFacts(s, e2, f0);
    var n, prev := |s.code|, s.code[e2.k.pc];
    var s' := s.(code := s.code[e2.k.pc := OpConcat(prev.a, f0, prev.c)], freereg := f0);
    ExecSame(m, s.code, s'.code, n - 1, lo, r0);
    var o := RunOf(m, s, e2, lo, r0);
    if o.Fall? && w.Val? {
      assert Get(o.r, f0) == Get(w.r, f0);
    }
  }

  lemma JoinFacts(s: FS, e2: Exp, f0: int)
    requires Inv(s) && ExpInv(s, e2, f0 + 1) && e2.k.VReloc? && s.code[e2.k.pc].OpConcat? && s.nactvar <= f0
    ensures e2.k.pc == |s.code| - 1 >= 0 && s.jpc == [] && s.code[e2.k.pc].b == f0 + 1 <= s.code[e2.k.pc].c && 0 <= f0
  {
  }

  lemma NewConcatSound(m: Machine, s0: FS, s: FS, e1: Exp, e2: Exp, f0: int, lo: int, r0: Regs, w: Want, v1: Value)
    requires Inv(s) && ExpInv(s, e2, f0 + 1) && Start(s, lo, r0) && Means(m, s, e2, f0 + 1, lo, r0, w)
    requires e1 == Exp(VNonreloc(f0), [], []) && s.nactvar <= f0
    requires w.Val? ==> Get(w.r, f0) == v1
    requires Fits(m, Exp2NextReg(s, e2).0)
    ensures var s2 := Exp2NextReg(s, e2).0.(freereg := f0);
            Means(m, Emit(s2, OpConcat(0, f0, f0 + 1)), e1.(k := VReloc(|s2.code|)), f0, lo, r0,
                  ResultWant(w, if w.Val? then m.ops.concat(v1, w.v) else None))
  {
    hide Exec, Means, Exp2NextReg, Emit;
    Exp2NextRegInv(s, e2, f0 + 1);
    Exp2NextRegSound(m, s, e2, f0 + 1, lo, r0, w);
    var (s1, e2') := Exp2NextReg(s, e2);
    SimpleHere(m, s1, e2', f0 + 1, lo, r0, w);
    var s2, i := s1.(freereg := f0), OpConcat(0, f0, f0 + 1);
    var v := if w.Val? then m.ops.concat(v1, w.v) else None;
    assert Reach(m, s2, lo, r0) == Reach(m, s1, lo, r0);
    if w.Val? {
      var r := Reach(m, s1, lo, r0).r;
      assert 0 <= f0 && Get(r, f0) == Get(w.r, f0);
      assert ConcatRange(m, r, f0 + 1, f0 + 1) == Ok(w.v);
    }
    assert Here(m, s2, f0, lo, r0, w);
    EmitSound(m, s2, i, e1, f0, lo, r0, w, v);
  }

  lemma CodeConcatSound(m: Machine, s0: FS, e1: Exp, e20: Exp, f0: int, lo: int, r0: Regs, w: Want, v1: Value)
    requires Inv(s0) && e1 == Exp(VNonreloc(f0), [], []) && s0.nactvar <= f0 && ExpInv(s0, e20, f0 + 1)
    requires Start(s0, lo, r0) && Means(m, s0, e20, f0 + 1, lo, r0, w)
    requires w.Val? ==> Get(w.r, f0) == v1
    requires Fits(m, CodeConcat(s0, e1, e20).0)
    ensures var (s', e') := CodeConcat(s0, e1, e20);
            Means(m, s', e', f0, lo, r0, ResultWant(w, if w.Val? then m.ops.concat(v1, w.v) else None))
  {
    hide Exec, Means, Exp2Val, Exp2NextReg, Emit, Start, Inv;
    Exp2ValInv(s0, e20, f0 + 1);
    var (s, e2) := Exp2Val(s0, e20);
    ConcatBranches(s0, e1, e20, f0);
    if e2.k.VReloc? && s.code[e2.k.pc].OpConcat? {
      Exp2ValSound(m, s0, e20, f0 + 1, lo, r0, w);
      JoinConcatSound(m, s, e1, e2, f0, lo, r0, w, v1);
    } else {
      EmitKeeps(Exp2NextReg(s, e2).0.(freereg := f0), OpConcat(0, f0, f0 + 1));
      Exp2NextRegInv(s, e2, f0 + 1);
      FitsBefore(m, s, Exp2NextReg(s, e2).0);
      Exp2ValSound(m, s0, e20, f0 + 1, lo, r0, w);
      NewConcatSound(m, s0, s, e1, e2, f0, lo, r0, w, v1);
    }
  }

  lemma ConcatBranches(s0: FS, e1: Exp, e20: Exp, f0: int)
    requires Inv(s0) && e1 == Exp(VNonreloc(f0), [], []) && s0.nactvar <= f0 && ExpInv(s0, e20, f0 + 1)
    ensures var (s, e2) := Exp2Val(s0, e20);
            (e2.k.VReloc? ==> 0 <= e2.k.pc < |s.code|) &&
            if e2.k.VReloc? && s.code[e2.k.pc].OpConcat? then
              var prev := s.code[e2.k.pc];
              CodeConcat(s0, e1, e20) ==
                (s.(code := s.code[e2.k.pc := OpConcat(prev.a, f0, prev.c)], freereg := f0), e1.(k := e2.k))
            else
              var s2 := Exp2NextReg(s, e2).0.(freereg := f0);
              CodeConcat(s0, e1, e20) == (Emit(s2, OpConcat(0, f0, f0 + 1)), e1.(k := VReloc(|s2.code|)))
  {
    hide Exp2Val, Exp2NextReg, Emit;
    Exp2ValInv(s0, e20, f0 + 1);
    var (s, e2) := Exp2Val(s0, e20);
    Exp2NextRegInv(s, e2, f0 + 1);
  }

  lemma FoldedMeets(m: Machine, s: FS, op: UnOpr, e: Exp, f0: int, lo: int, r0: Regs, q: Outcome, p: Path)
    requires Meets(m, s, e, f0, lo, r0, q, p) && UnaryFolds(m.ops, op, e)
    ensures var (s', e') := CodeUnary(m.ops, s, op, e); Meets(m, s', e', f0, lo, r0, q, UnaryPath(m.ops, op, s, e, p))
  {
    hide Exec;
  }

  lemma UnaryResult(m: Machine, s: FS, op: UnOpr, e: Exp, q: Outcome, p: Path, w: Want)
    requires !op.NotOpr? && !UnaryFolds(m.ops, op, e) && w == Lift(p, q) && !q.Stuck?
    ensures Lift(UnaryPath(m.ops, op, s, e, p), q) ==
              if ConstantOperand(s, e) && !op.LenOpr? then BrokenWant(w)
              else ResultWant(w, if w.Val? then EvalUnary(m.ops, op, w.v) else None)
    ensures var p' := UnaryPath(m.ops, op, s, e, p); !p'.Left? && (p'.Fell? ==> p'.c == None)
  {
  }

  lemma UnarySound(m: Machine, s: FS, op: UnOpr, e: Exp, f0: int, lo: int, r0: Regs, q: Outcome, p: Path)
    requires Inv(s) && ExpInv(s, e, f0) && Start(s, lo, r0) && Meets(m, s, e, f0, lo, r0, q, p) && !q.Stuck?
    requires (op.MinusOpr? || op.BNotOpr?) && !e.k.VK? && Fits(m, CodeUnary(m.ops, s, op, e).0)
    ensures var (s', e') := CodeUnary(m.ops, s, op, e); Meets(m, s', e', f0, lo, r0, q, UnaryPath(m.ops, op, s, e, p))
  {
    hide Exec, Means, Arrives, Inv, ExpInv, Start, CodeUnary;
    if UnaryFolds(m.ops, op, e) {
      FoldedMeets(m, s, op, e, f0, lo, r0, q, p);
    } else {
      UnaryRunSound(m, s, op, e, f0, lo, r0, Lift(p, q));
      UnaryResult(m, s, op, e, q, p, Lift(p, q));
      var (s', e') := CodeUnary(m.ops, s, op, e);
      ComputedMeets(m, s', e', f0, lo, r0, q, UnaryPath(m.ops, op, s, e, p));
    }
  }

  // `#', and anything applied to a string: the operand goes to a register first.
  lemma InRegisterSound(m: Machine, s: FS, op: UnOpr, e: Exp, f0: int, lo: int, r0: Regs, q: Outcome, p: Path)
    requires Inv(s) && ExpInv(s, e, f0) && Start(s, lo, r0) && Meets(m, s, e, f0, lo, r0, q, p) && !q.Stuck?
    requires !op.NotOpr? && (op.LenOpr? || e.k.VK?)
    requires var (s1, e1) := Exp2AnyReg(s, e); Fits(m, CodeUnary(m.ops, s1, op, e1).0)
    ensures var (s1, e1) := Exp2AnyReg(s, e); var (s', e') := CodeUnary(m.ops, s1, op, e1);
            Meets(m, s', e', f0, lo, r0, q, UnaryPath(m.ops, op, s, e, p))
  {
    hide Exec, Means, Arrives, Exp2AnyReg, CodeUnary, Inv, ExpInv, Start;
    Exp2AnyRegInv(s, e, f0);
    var (s1, e1) := Exp2AnyReg(s, e);
    CodeUnaryInv(m.ops, s1, op, e1, f0);
    SteppedBefore(m, s1, Own(e1), CodeUnary(m.ops, s1, op, e1).0, CodeUnary(m.ops, s1, op, e1).1, f0);
    Exp2AnyRegSound(m, s, e, f0, lo, r0, Lift(p, q));
    UnaryRunSound(m, s1, op, e1, f0, lo, r0, Lift(p, q));
    UnaryResult(m, s, op, e, q, p, Lift(p, q));
    var (s', e') := CodeUnary(m.ops, s1, op, e1);
    ComputedMeets(m, s', e', f0, lo, r0, q, UnaryPath(m.ops, op, s, e, p));
  }

  lemma PrefixSound(m: Machine, s: FS, op: UnOpr, e: Exp, f0: int, lo: int, r0: Regs, q: Outcome, p: Path)
    requires Inv(s) && ExpInv(s, e, f0) && Start(s, lo, r0) && Meets(m, s, e, f0, lo, r0, q, p) && !q.Stuck?
    requires ConstTrue(m, e) && Fits(m, Prefix(m.ops, s, op, e).0)
    ensures var (s', e') := Prefix(m.ops, s, op, e); Meets(m, s', e', f0, lo, r0, q, UnaryPath(m.ops, op, s, e, p))
  {
    hide Exec, Meets, Exp2AnyReg, CodeUnary, CodeNot, Inv, ExpInv, Start, UnaryPath;
    if op.NotOpr? {
      CodeNotSound(m, s, e, f0, lo, r0, q, p);
    } else if op.LenOpr? || e.k.VK? {
      InRegisterSound(m, s, op, e, f0, lo, r0, q, p);
    } else {
      UnarySound(m, s, op, e, f0, lo, r0, q, p);
    }
  }

  lemma SteppedBefore(m: Machine, s: FS, own: seq<int>, s': FS, e: Exp, f0: int)
    requires Stepped(s, own, s', e, f0)
    ensures Grows(s, s') && (Fits(m, s') ==> Fits(m, s))
  {
  }

  lemma InfixSound(m: Machine, s: FS, op: BinOpr, e: Exp, f0: int, lo: int, r0: Regs, w: Want)
    requires Inv(s) && ExpInv(s, e, f0) && Start(s, lo, r0) && Means(m, s, e, f0, lo, r0, w)
    requires !op.AndOpr? && !op.OrOpr? && Fits(m, Infix(s, op, e).0)
    ensures var (s', e') := Infix(s, op, e);
            Start(s', lo, r0) && Here(m, s', f0, lo, r0, w) &&
            (w.Val? ==> MainVal(m, s', e', Reach(m, s', lo, r0).r) == Ok(w.v))
  {
    hide Exec, Means, Start, Inv, ExpInv, Exp2NextReg, Exp2RK;
    var (s', e') := Infix(s, op, e);
    InfixInv(s, op, e, f0);
    if op.ConcatOpr? {
      Exp2NextRegInv(s, e, f0);
      Exp2NextRegSound(m, s, e, f0, lo, r0, w);
    } else if op.ArithOpr? && !IsBitwise(op.op) && IsNumeral(e) {
    } else {
      Exp2RKInv(s, e, f0);
      Exp2RKSound(m, s, e, f0, lo, r0, w);
    }
    SimpleHere(m, s', e', f0, lo, r0, w);
  }

  function BinaryWant(ops: Ops, op: BinOpr, v1: Value, w: Want): Want
    requires !op.AndOpr? && !op.OrOpr?
  {
    ResultWant(w,
      if !w.Val? then None
      else if op.ArithOpr? then Arith(ops, op.op, v1, w.v)
      else if op.ConcatOpr? then ops.concat(v1, w.v)
      else EvalComp(ops, op.rel, v1, w.v))
  }

  lemma PosfixSound(m: Machine, s: FS, op: BinOpr, e1: Exp, e2: Exp, f0: int, f1: int, lo: int, r0: Regs, w: Want,
      v1: Value)
    requires Inv(s) && Waiting(s, e1, f0, f1) && ExpInv(s, e2, f1) && !op.AndOpr? && !op.OrOpr?
    requires (op.ConcatOpr? ==> e1 == Exp(VNonreloc(f0), [], [])) && (op.CompOpr? ==> !e1.k.VKNum?)
    requires Start(s, lo, r0) && Means(m, s, e2, f1, lo, r0, w) && (w.Val? ==> MainVal(m, s, e1, w.r) == Ok(v1))
    requires Fits(m, Posfix(m.ops, s, op, e1, e2).0)
    ensures var (s', e) := Posfix(m.ops, s, op, e1, e2); Means(m, s', e, f0, lo, r0, BinaryWant(m.ops, op, v1, w))
  {
    hide Exec, Means, Start, Inv, ExpInv, CodeArith, CodeConcat, CodeComp;
    match op {
      case ArithOpr(aop) => CodeArithSound(m, s, aop, e1, e2, f0, f1, lo, r0, w, v1);
      case ConcatOpr => CodeConcatSound(m, s, e1, e2, f0, lo, r0, w, v1);
      case CompOpr(rel) => CodeCompSound(m, s, rel, e1, e2, f0, f1, lo, r0, w, v1);
    }
  }

  // ----- every expression -----

  lemma MeansWeaken(m: Machine, s: FS, e: Exp, f0: int, lo: int, r0: Regs, v: Value, r: Regs, r': Regs)
    requires Means(m, s, e, f0, lo, r0, Val(v, r')) && Agree(r, r', f0)
    ensures Means(m, s, e, f0, lo, r0, Val(v, r))
  {
    hide Exec, MainVal;
  }

  lemma {:induction false} ConstTrueGen(m: Machine, s: FS, x: Expr)
    requires Inv(s) && LocalsBelow(x, s.nactvar) && Gen(m.ops, s, x).0.k <= m.k
    ensures ConstTrue(m, Gen(m.ops, s, x).1)
    decreases x
  {
    hide Infix;
    match x {
      case EParen(y) => ConstTrueGen(m, s, y);
      case EUnary(op, y) => PrefixNotVK(m.ops, Gen(m.ops, s, y).0, op, Gen(m.ops, s, y).1);
      case EBinary(op, y, z) =>
        GenInv(m.ops, s, y);
        var (s1, e1) := Gen(m.ops, s, y);
        LeftInv(s1, op, e1, s.freereg);
        var (s2, e1') := Infix(s1, op, e1);
        var (s3, e2) := Gen(m.ops, s2, z);
        hide Infix;
        if op.AndOpr? || op.OrOpr? {
          ConstTrueGen(m, s2, z);
        } else {
          PosfixNotVK(m.ops, s3, op, e1', e2);
        }
      case EStr(str) =>
      case _ =>
    }
  }

  lemma PrefixNotVK(ops: Ops, s: FS, op: UnOpr, e: Exp)
    ensures !Prefix(ops, s, op, e).1.k.VK?
  {
    hide Exp2AnyReg, Exp2RK, Discharge2AnyReg, RemoveValues, InvertJump;
  }

  lemma PosfixNotVK(ops: Ops, s: FS, op: BinOpr, e1: Exp, e2: Exp)
    requires !op.AndOpr? && !op.OrOpr?
    ensures !Posfix(ops, s, op, e1, e2).1.k.VK?
  {
    hide Exp2NextReg, Exp2RK, Exp2Val, CondJump;
  }

  // Gen leaves no expression in a register of its own.
  lemma {:induction false} GenNonreloc(ops: Ops, s: FS, x: Expr)
    requires Inv(s) && LocalsBelow(x, s.nactvar)
    ensures var (s', e) := Gen(ops, s, x); e.k.VNonreloc? ==> e.k.reg < s.nactvar
    decreases x
  {
    match x {
      case EParen(y) =>
        GenNonreloc(ops, s, y);
        GenInv(ops, s, y);
        LocalReg(Gen(ops, s, y).0, Gen(ops, s, y).1, s.freereg);
      case EUnary(op, y) => PrefixNonreloc(ops, Gen(ops, s, y).0, op, Gen(ops, s, y).1);
      case EBinary(op, y, z) =>
        GenInv(ops, s, y);
        var (s1, e1) := Gen(ops, s, y);
        LeftInv(s1, op, e1, s.freereg);
        var (s2, e1') := Infix(s1, op, e1);
        var (s3, e2) := Gen(ops, s2, z);
        hide Infix, DischargeVars;
        if op.AndOpr? || op.OrOpr? {
          GenInv(ops, s2, z);
          GenNonreloc(ops, s2, z);
          LocalReg(s3, e2, s2.freereg);
        } else {
          PosfixNonreloc(ops, s3, op, e1', e2);
        }
      case _ =>
    }
  }

  lemma LocalReg(s: FS, e: Exp, f0: int)
    requires Usable(s, e, f0) && (e.k.VNonreloc? ==> e.k.reg < s.nactvar)
    ensures var e' := DischargeVars(s, e).1; e'.k.VNonreloc? ==> e'.k.reg < s.nactvar
  {
  }

  lemma PrefixNonreloc(ops: Ops, s: FS, op: UnOpr, e: Exp)
    ensures !Prefix(ops, s, op, e).1.k.VNonreloc?
  {
    hide Exp2AnyReg, Exp2RK, Discharge2AnyReg, RemoveValues, InvertJump;
  }

  lemma PosfixNonreloc(ops: Ops, s: FS, op: BinOpr, e1: Exp, e2: Exp)
    requires !op.AndOpr? && !op.OrOpr?
    ensures !Posfix(ops, s, op, e1, e2).1.k.VNonreloc?
  {
    hide Exp2NextReg, Exp2RK, Exp2Val, CondJump;
  }

  // ----- what a left operand leaves waiting to land -----

  // No jump that is about to land carries a value.
  ghost predicate Empty(s: FS) {
    forall j :: j in s.jpc ==> !ControlIsTestSet(s.code, j)
  }

  lemma EmptyArrives(m: Machine, s: FS, lo: int, r0: Regs)
    requires Empty(s)
    ensures Arrived(m, s, lo, r0) == None
  {
    hide Exec;
  }

  lemma LoadEmpties(s: FS, e: Exp, f0: int)
    requires Inv(s) && Usable(s, e, f0) && !e.k.VLocal? && !e.k.VUpval? && !e.k.VJmp? && e.k != VNonreloc(f0)
    ensures Load(s, e.k, f0).jpc == [] && (s.jpc != [] ==> |Load(s, e.k, f0).code| > |s.code|)
  {
    LoadCases(s, e, f0, f0);
    if e.k.VNil? {
      EmitNilInv(s, f0);
      EmitNilCases(s, f0);
      if s.jpc != [] { EmitInv(s, OpLoadNil(f0, f0)); }
    } else if !e.k.VReloc? {
      var (s1, i) := LoadInstr(s, e.k, f0);
      EmitKeeps(s1, i);
      EmitInv(s1, i);
    }
    hide Emit, EmitNil, Load;
  }

  lemma DischargeEmpties(s: FS, e: Exp, f0: int)
    requires Inv(s) && Usable(s, e, f0) && e.k != VNonreloc(f0)
    ensures var s' := Discharge2Reg(s, e, f0).0; s'.jpc == [] && (s.jpc != [] ==> |s'.code| > |s.code|)
  {
    DischargeVarsInv(s, e, f0);
    var (s1, e1) := DischargeVars(s, e);
    if e.k.VUpval? { EmitKeeps(s, OpGetUpval(0, e.k.uv)); EmitInv(s, OpGetUpval(0, e.k.uv)); }
    hide Load, Emit;
    if !e.k.VJmp? {
      LoadEmpties(s1, e1, f0);
      LoadInv(s1, e1, f0, f0);
    }
  }

  lemma ListsEmpty(s: FS, e: Exp, t: seq<int>, f0: int)
    requires Inv(s) && Discharged(s, e, t, f0) && s.jpc == []
    ensures Empty(Exp2RegLists(s, e, t, f0))
  {
    hide LoadLabels, PatchListAux, NeedValue, Exp2RegLists, Patched, Labelled, Discharged;
    Exp2RegListsCases(s, e, t, f0);
    if !(t == [] && e.f == []) && (NeedValue(s.code, t) || NeedValue(s.code, e.f)) {
      LabelsPatched(s, e, t, f0);
      SkipIsPlain(s, e, t, f0, LoadLabels(s, e, f0).0, Exp2RegLists(s, e, t, f0));
    }
  }

  lemma SkipIsPlain(s: FS, e: Exp, t: seq<int>, f0: int, s1: FS, s': FS)
    requires Inv(s) && Discharged(s, e, t, f0) && s.jpc == [] && Labelled(s, s1, e, f0) && s'.jpc == s1.jpc
    requires var n := |s1.code|; Patched(s1.code, s'.code, e.f, t, n, f0, n - 2, n - 1)
    ensures Empty(s')
  {
    hide Patched;
    var n := |s.code|;
    if !e.k.VJmp? {
      assert s1.jpc == [n] && Pending(s1.code, n);
      assert forall j :: j in e.f || j in t ==> j < n && Pending(s1.code, j);
      PatchedJumps(s1.code, s'.code, e.f, t, |s1.code|, f0, |s1.code| - 2, |s1.code| - 1, n);
      assert n > 0 ==> s1.code[n - 1] == s.code[n - 1] && !IsTest(s.code[n - 1]);
    }
  }

  lemma RegEmpties(s: FS, e: Exp, f0: int)
    requires Inv(s) && Usable(s, e, f0) && e.k != VNonreloc(f0)
    ensures var s' := Exp2Reg(s, e, f0).0; Empty(s') && (s.jpc != [] ==> |s'.code| > |s.code|)
  {
    hide Discharge2Reg, Exp2RegLists, Discharged, Empty;
    DischargeEmpties(s, e, f0);
    DischargedFacts(s, e, f0);
    var (s1, e1) := Discharge2Reg(s, e, f0);
    var t := if e1.k.VJmp? then e1.t + [e1.k.pc] else e1.t;
    ListsEmpty(s1, e1, t, f0);
    LongerLists(s1, e1, t, f0);
  }

  lemma LongerLists(s: FS, e: Exp, t: seq<int>, f0: int)
    requires Inv(s) && Discharged(s, e, t, f0)
    ensures |Exp2RegLists(s, e, t, f0).code| >= |s.code|
  {
    Exp2RegListsInv(s, e, t, f0);
    hide Exp2RegLists;
  }

  lemma VarsEmpty(s: FS, e: Exp, f0: int)
    requires Inv(s) && ExpInv(s, e, f0) && (e.k.VNonreloc? ==> e.k.reg < s.nactvar)
    ensures var (s1, e1) := DischargeVars(s, e);
            Inv(s1) && ExpInv(s1, e1, f0) && (e1.k.VNonreloc? ==> e1.k.reg < s1.nactvar) &&
            HasJumps(e1) == HasJumps(e) &&
            (s1 == s || (s1.jpc == [] && |s1.code| > |s.code|))
  {
    DischargeVarsInv(s, e, f0);
    LocalReg(s, e, f0);
    if e.k.VUpval? { EmitInv(s, OpGetUpval(0, e.k.uv)); EmitKeeps(s, OpGetUpval(0, e.k.uv)); }
    hide Emit, Frame;
  }

  // An expression that Gen leaves, put in the next register.
  lemma NextRegEmpties(s: FS, e: Exp, f0: int)
    requires Inv(s) && ExpInv(s, e, f0) && (e.k.VNonreloc? ==> e.k.reg < s.nactvar)
    ensures var s' := Exp2NextReg(s, e).0; Empty(s') && (s.jpc != [] ==> |s'.code| > |s.code|)
  {
    hide DischargeVars, Exp2Reg, Empty, Inv, KindInv, ListsInv, Frame;
    VarsEmpty(s, e, f0);
    var (s1, e1) := DischargeVars(s, e);
    TakeReg(s1, e1, f0);
    var s2 := ReserveRegs(FreeExp(s1, e1), 1);
    RegEmpties(s2, e1, f0);
    RegGrows(s2, e1, f0);
  }

  lemma RegGrows(s: FS, e: Exp, f0: int)
    requires Inv(s) && Usable(s, e, f0)
    ensures |Exp2Reg(s, e, f0).0.code| >= |s.code|
  {
    hide Exp2Reg;
    Exp2RegInv(s, e, f0, f0);
  }

  lemma AnyRegEmpties(s: FS, e: Exp, f0: int)
    requires Inv(s) && ExpInv(s, e, f0) && (e.k.VNonreloc? ==> e.k.reg < s.nactvar)
    ensures var (s', e') := Exp2AnyReg(s, e);
      (s' == s && !HasJumps(e)) || (Empty(s') && (s.jpc != [] ==> |s'.code| > |s.code|))
  {
    hide DischargeVars, Exp2NextReg, Empty, Inv, ExpInv, Frame;
    VarsEmpty(s, e, f0);
    var (s1, e1) := DischargeVars(s, e);
    NoneEmpty(s1);
    NextRegEmpties(s1, e1, f0);
    NextRegGrows(s1, e1, f0);
  }

  lemma NoneEmpty(s: FS)
    ensures s.jpc == [] ==> Empty(s)
  {
  }

  lemma NextRegGrows(s: FS, e: Exp, f0: int)
    requires Inv(s) && ExpInv(s, e, f0)
    ensures |Exp2NextReg(s, e).0.code| >= |s.code|
  {
    hide Exp2NextReg;
    Exp2NextRegInv(s, e, f0);
  }

  lemma RKEmpties(s: FS, e: Exp, f0: int)
    requires Inv(s) && ExpInv(s, e, f0) && (e.k.VNonreloc? ==> e.k.reg < s.nactvar)
    ensures var s' := Exp2RK(s, e).0;
      (s'.code == s.code && s'.jpc == s.jpc && !HasJumps(e)) || (Empty(s') && (s.jpc != [] ==> |s'.code| > |s.code|))
  {
    hide Exp2AnyReg, Exp2Val, Empty, Inv, ExpInv, Frame;
    ValEmpties(s, e, f0);
    var (s1, e1) := Exp2Val(s, e);
    if !HasJumps(e) {
      AnyRegEmpties(s1, e1, f0);
      AnyRegGrows(s1, e1, f0);
    } else {
      KeptReg(s1, e1);
    }
    if IsConst(e1.k) { SameEmpty(s1, AddK(s1, ConstValue(e1.k)).0); }
  }

  lemma SameEmpty(s: FS, s': FS)
    requires s'.code == s.code && s'.jpc == s.jpc
    ensures Empty(s') == Empty(s)
  {
  }

  lemma AnyRegGrows(s: FS, e: Exp, f0: int)
    requires Inv(s) && ExpInv(s, e, f0)
    ensures |Exp2AnyReg(s, e).0.code| >= |s.code|
  {
    hide Exp2AnyReg;
    Exp2AnyRegInv(s, e, f0);
  }

  lemma ValEmpties(s: FS, e: Exp, f0: int)
    requires Inv(s) && ExpInv(s, e, f0) && (e.k.VNonreloc? ==> e.k.reg < s.nactvar)
    ensures var (s1, e1) := Exp2Val(s, e);
      Inv(s1) && ExpInv(s1, e1, f0) && !HasJumps(e1) &&
      (if HasJumps(e) then e1.k.VNonreloc? && Empty(s1) && (s.jpc != [] ==> |s1.code| > |s.code|)
       else (e1.k.VNonreloc? ==> e1.k.reg < s1.nactvar) &&
            (s1 == s || (Empty(s1) && s1.jpc == [] && |s1.code| > |s.code|)))
  {
    hide Exp2AnyReg, DischargeVars, Inv, ExpInv, Frame;
    AnyRegEmpties(s, e, f0);
    Exp2AnyRegInv(s, e, f0);
    VarsEmpty(s, e, f0);
  }

  lemma KeptReg(s: FS, e: Exp)
    requires e.k.VNonreloc? && !HasJumps(e)
    ensures Exp2AnyReg(s, e).0 == s
  {
  }

  lemma InfixEmpties(s: FS, op: BinOpr, e: Exp, f0: int)
    requires Inv(s) && ExpInv(s, e, f0) && (e.k.VNonreloc? ==> e.k.reg < s.nactvar) && !op.AndOpr? && !op.OrOpr?
    ensures var s' := Infix(s, op, e).0;
            if Quiet(s, op, e) then s'.code == s.code && (s'.jpc == s.jpc || (s.jpc == [] && Empty(s'))) else Empty(s')
  {
    if op.ConcatOpr? { NextRegEmpties(s, e, f0); } else { RKEmpties(s, e, f0); }
    hide Exp2NextReg, Exp2RK, Empty;
  }

  lemma InfixCarry(m: Machine, s: FS, op: BinOpr, e: Exp, f0: int, lo: int, r0: Regs, q: Outcome, p: Path)
    requires Inv(s) && ExpInv(s, e, f0) && (e.k.VNonreloc? ==> e.k.reg < s.nactvar) && !op.AndOpr? && !op.OrOpr?
    requires Meets(m, s, e, f0, lo, r0, q, p) && q.Fall? && Ends(p)
    ensures Arrived(m, Infix(s, op, e).0, lo, r0) == if Quiet(s, op, e) then p.c else None
  {
    InfixEmpties(s, op, e, f0);
    var s' := Infix(s, op, e).0;
    hide Exec, Infix, Means, Inv, ExpInv;
    if Empty(s') { EmptyArrives(m, s', lo, r0); }
  }

  // ----- binary operators -----

  function BinaryPath(ops: Ops, op: BinOpr, e1: Exp, e2: Exp, p1: Path, p2: Path): Path
    requires !op.AndOpr? && !op.OrOpr?
  {
    if !Ends(p1) then p1
    else if !Ends(p2) then p2
    else if Folds(ops, op, e1, e2) then Fell(Num(ConstFolding(ops, op.op, e1, e2).value), p2.c)
    else Computed(Operate(ops, op, Delivered(p1), Delivered(p2)))
  }

  lemma PosfixKind(ops: Ops, s: FS, op: BinOpr, e1: Exp, e2: Exp)
    requires !op.AndOpr? && !op.OrOpr? && !HasJumps(e1)
    ensures var (s', e) := Posfix(ops, s, op, e1, e2);
            !HasJumps(e) && if Folds(ops, op, e1, e2) then s' == s else e.k.VReloc? || e.k.VJmp?
  {
    hide Exp2NextReg, Exp2RK, Exp2Val, CondJump;
    RKLists(s, e1);
    if op.ArithOpr? { RKLists(Exp2RK(s, e2).0, e1); }
  }

  lemma RKLists(s: FS, e: Exp)
    requires !HasJumps(e)
    ensures !HasJumps(Exp2RK(s, e).1)
  {
    hide Discharge2Reg, Exp2RegLists, Emit;
  }

  lemma FoldedValue(m: Machine, op: BinOpr, e1: Exp, e2: Exp, q: Outcome, p1: Path, p2: Path, r: Regs, w2: Want)
    requires !op.AndOpr? && !op.OrOpr? && q == Fall(r) && Ends(p1) && w2 == Lift(p2, q)
    requires Folds(m.ops, op, e1, e2) && Ends(p2) ==> Delivered(p1) == Num(e1.k.nval) && Delivered(p2) == Num(e2.k.nval)
    ensures Lift(BinaryPath(m.ops, op, e1, e2, p1, p2), q) == BinaryWant(m.ops, op, Delivered(p1), w2)
  {
  }

  lemma OperatorMeans(m: Machine, s1: FS, op: BinOpr, e1: Exp, z: Expr, s2: FS, e1': Exp, s3: FS, e2: Exp,
                      f0: int, lo: int, r0: Regs, q: Outcome, p1: Path, p2: Path)
    requires !op.AndOpr? && !op.OrOpr? && (s2, e1') == Infix(s1, op, e1) && !q.Stuck?
    requires Inv(s1) && ExpInv(s1, e1, f0) && LocalsBelow(z, s1.nactvar)
    requires Stepped(s2, [], s3, e2, s2.freereg)
    requires Start(s2, lo, r0) && Here(m, s2, f0, lo, r0, Lift(p1, q))
    requires q.Fall? && Ends(p1) ==> MainVal(m, s2, e1', Reach(m, s2, lo, r0).r) == Ok(Delivered(p1))
    requires Meets(m, s3, e2, s2.freereg, lo, r0, Reach(m, s2, lo, r0), p2)
    requires Fits(m, Posfix(m.ops, s3, op, e1', e2).0)
    ensures var (s4, e) := Posfix(m.ops, s3, op, e1', e2);
            Means(m, s4, e, f0, lo, r0, Lift(BinaryPath(m.ops, op, e1', e2, p1, p2), q))
  {
    hide ResultWant, ExpInv, Waiting, Arrived, Own, IsNumeral, BinaryPath, Start, Posfix, ValueOf;
    var q2 := Reach(m, s2, lo, r0);
    var v1 := Delivered(p1);
    var w2 := Lift(p2, q2);
    OperatorFacts(s1, op, e1, s2, e1', s3, e2, f0, lo, r0);
    NumeralPaths(m, s2, op, e1', s3, e2, f0, lo, r0, q, p1, q2, p2);
    hide Exec, Means, Start, Inv, ExpInv, Infix, Posfix, Stepped, Waiting, BinaryWant, BinaryPath, Arrives, Reach;
    WaitingValue(m, s2, s3, e1', f0);
    PosfixSound(m, s3, op, e1', e2, f0, s2.freereg, lo, r0, w2, v1);
    if q.Fall? && Ends(p1) {
      FoldedValue(m, op, e1', e2, q2, p1, p2, q2.r, w2);
      var (s4, e) := Posfix(m.ops, s3, op, e1', e2);
      var p := BinaryPath(m.ops, op, e1', e2, p1, p2);
      if Lift(p, q).Val? { MeansWeaken(m, s4, e, f0, lo, r0, Delivered(p), q.r, q2.r); }
    } else {
      PassesOn(m.ops, op, e1', e2, v1, p1, p2, q, q2);
    }
  }

  lemma PassesOn(ops: Ops, op: BinOpr, e1: Exp, e2: Exp, v1: Value, p1: Path, p2: Path, q: Outcome, q2: Outcome)
    requires !op.AndOpr? && !op.OrOpr? && !(q.Fall? && Ends(p1)) && !q.Stuck?
    requires match Lift(p1, q) case Err => q2.Fail? case Bad => q2.Broken? case Away(j, r) => q2 == Exit(j, r)
             case Val(_, _) => true
    ensures BinaryWant(ops, op, v1, Lift(p2, q2)) == Lift(BinaryPath(ops, op, e1, e2, p1, p2), q)
  {
  }

  // Operands that fold have the values of their numerals.
  lemma NumeralPaths(m: Machine, s2: FS, op: BinOpr, e1: Exp, s3: FS, e2: Exp, f0: int, lo: int, r0: Regs,
                     q: Outcome, p1: Path, q2: Outcome, p2: Path)
    requires q2 == Reach(m, s2, lo, r0) && Here(m, s2, f0, lo, r0, Lift(p1, q))
    requires q.Fall? && Ends(p1) ==> MainVal(m, s2, e1, q2.r) == Ok(Delivered(p1))
    requires Meets(m, s3, e2, s2.freereg, lo, r0, q2, p2)
    ensures q.Fall? && Ends(p1) && Folds(m.ops, op, e1, e2) && Ends(p2) ==>
              Delivered(p1) == Num(e1.k.nval) && p2.Fell? && Delivered(p2) == Num(e2.k.nval)
  {
    hide Exec;
  }

  lemma OperatorSound(m: Machine, s1: FS, op: BinOpr, e1: Exp, z: Expr, s2: FS, e1': Exp, s3: FS, e2: Exp,
                      f0: int, lo: int, r0: Regs, q: Outcome, p1: Path, p2: Path)
    requires !op.AndOpr? && !op.OrOpr? && (s2, e1') == Infix(s1, op, e1) && !q.Stuck?
    requires Inv(s1) && ExpInv(s1, e1, f0) && LocalsBelow(z, s1.nactvar)
    requires Stepped(s2, [], s3, e2, s2.freereg)
    requires Start(s2, lo, r0) && Here(m, s2, f0, lo, r0, Lift(p1, q))
    requires q.Fall? && Ends(p1) ==> MainVal(m, s2, e1', Reach(m, s2, lo, r0).r) == Ok(Delivered(p1))
    requires Meets(m, s3, e2, s2.freereg, lo, r0, Reach(m, s2, lo, r0), p2)
    requires Fits(m, Posfix(m.ops, s3, op, e1', e2).0)
    ensures var (s4, e) := Posfix(m.ops, s3, op, e1', e2);
            Meets(m, s4, e, f0, lo, r0, q, BinaryPath(m.ops, op, e1', e2, p1, p2))
  {
    OperatorMeans(m, s1, op, e1, z, s2, e1', s3, e2, f0, lo, r0, q, p1, p2);
    OperatorFacts(s1, op, e1, s2, e1', s3, e2, f0, lo, r0);
    RightInv(m.ops, s1, op, e1, s2, e1', s3, e2, f0);
    var q2 := Reach(m, s2, lo, r0);
    NumeralPaths(m, s2, op, e1', s3, e2, f0, lo, r0, q, p1, q2, p2);
    assert !HasJumps(e1');
    PosfixKind(m.ops, s3, op, e1', e2);
    var (s4, e) := Posfix(m.ops, s3, op, e1', e2);
    hide Exec, Means, Start, Infix, Posfix, Frame, Inv, Usable;
    var p := BinaryPath(m.ops, op, e1', e2, p1, p2);
    if Folds(m.ops, op, e1', e2) {
      FoldArrives(m, s3, e2, e, f0, s2.freereg, lo, r0, q, q2, p1, p2, p);
    } else {
      SteppedEmpty(s1, Own(e1), s4, e, f0);
      ComputedMeets(m, s4, e, f0, lo, r0, q, p);
    }
  }

  lemma SteppedEmpty(s: FS, own: seq<int>, s': FS, e: Exp, f0: int)
    requires Stepped(s, own, s', e, f0) && (e.k.VReloc? || e.k.VJmp?)
    ensures s'.jpc == []
  {
  }

  lemma FoldArrives(m: Machine, s: FS, e2: Exp, e: Exp, f0: int, f1: int, lo: int, r0: Regs, q: Outcome, q2: Outcome,
      p1: Path, p2: Path, p: Path)
    requires Meets(m, s, e2, f1, lo, r0, q2, p2) && Means(m, s, e, f0, lo, r0, Lift(p, q)) && !HasJumps(e)
    requires q.Fall? && Ends(p1) ==> q2.Fall?
    requires !Ends(p1) || !Ends(p2) ==> !Ends(p)
    requires Ends(p1) && Ends(p2) && q.Fall? ==> p2.Fell? && p.Fell? && p.c == p2.c
    ensures Meets(m, s, e, f0, lo, r0, q, p)
  {
    hide Exec, MainVal;
  }

  // ----- and, or -----

  lemma LogicSound(m: Machine, s1: FS, e1: Exp, cond: bool, s2: FS, list: seq<int>, s3: FS, e2: Exp,
                   f0: int, lo: int, r0: Regs, q: Outcome, t: Turn, p2: Path)
    requires GoneInv(s1, e1, s2, list, f0) && Stepped(s2, [], s3, e2, f0)
    requires Start(s2, lo, r0) && Branches(m, s2, list, cond, f0, lo, r0, q, t)
    requires Meets(m, s3, e2, f0, lo, r0, Reach(m, s2, lo, r0), p2)
    ensures var (s4, e) := DischargeVars(s3, e2);
            Meets(m, s4, if cond then e.(t := e.t + list) else e.(f := e.f + list), f0, lo, r0, q,
                  if t.Stays? then t.p else Loaded(e2, p2))
  {
    hide Exec, Meets, DischargeVars, GoneInv, Stepped, Start, Inv, ExpInv, Branches, Loaded;
    LogicFacts(s1, e1, s2, list, s3, e2, f0, lo, r0);
    var (s4, e) := DischargeVars(s3, e2);
    var q2 := Reach(m, s2, lo, r0);
    DischargedMeets(m, s3, e2, f0, lo, r0, q2, p2);
    JoinSound(m, s2, list, cond, s4, e, f0, lo, r0, q, t, Loaded(e2, p2));
  }

  // The exits already taken join the lists of the second operand.
  lemma JoinSound(m: Machine, s2: FS, list: seq<int>, cond: bool, s3: FS, e2: Exp, f0: int, lo: int, r0: Regs,
      q: Outcome, t: Turn, p2: Path)
    requires Branches(m, s2, list, cond, f0, lo, r0, q, t)
    requires (forall j :: j in list ==> SameJump(s2.code, s3.code, j)) && Disjoint(list, s3.jpc)
    requires Meets(m, s3, e2, f0, lo, r0, Reach(m, s2, lo, r0), p2)
    ensures Meets(m, s3, if cond then e2.(t := e2.t + list)
                  else e2.(f := e2.f + list), f0, lo, r0, q, if t.Stays? then t.p else p2)
  {
    hide Exec, SameJump, Carry;
    var e := if cond then e2.(t := e2.t + list) else e2.(f := e2.f + list);
    assert RunOf(m, s3, e, lo, r0) == RunOf(m, s3, e2, lo, r0);
    assert forall r :: MainVal(m, s3, e, r) == MainVal(m, s3, e2, r);
    CarrySame(s2.code, s3.code);
    hide RunOf, MainVal, Arrived;
    var q2 := Reach(m, s2, lo, r0);
    hide Reach;
    if q.Fall? && t.GoesOn? && Ends(p2) {
      WeakerMeans(m, s3, e2, f0, lo, r0, Delivered(p2), q.r, q2.r);
    }
  }

  lemma WeakerMeans(m: Machine, s: FS, e: Exp, f0: int, lo: int, r0: Regs, v: Value, r: Regs, r': Regs)
    requires Means(m, s, e, f0, lo, r0, Val(v, r')) && Agree(r, r', f0)
    ensures Means(m, s, e, f0, lo, r0, Val(v, r))
  {
    MeansWeaken(m, s, e, f0, lo, r0, v, r, r');
  }

  lemma WaitingValue(m: Machine, s2: FS, s3: FS, e: Exp, f0: int)
    requires Waiting(s2, e, f0, s2.freereg)
    ensures forall r :: MainVal(m, s3, e, r) == MainVal(m, s2, e, r)
  {
  }

  lemma OperatorFacts(s1: FS, op: BinOpr, e1: Exp, s2: FS, e1': Exp, s3: FS, e2: Exp, f0: int, lo: int, r0: Regs)
    requires !op.AndOpr? && !op.OrOpr? && (s2, e1') == Infix(s1, op, e1)
    requires Inv(s1) && ExpInv(s1, e1, f0)
    requires Stepped(s2, [], s3, e2, s2.freereg) && Start(s2, lo, r0)
    ensures Inv(s3) && Waiting(s2, e1', f0, s2.freereg) && Waiting(s3, e1', f0, s2.freereg)
    ensures ExpInv(s3, e2, s2.freereg)
    ensures (op.ConcatOpr? ==> e1' == Exp(VNonreloc(f0), [], [])) && (op.CompOpr? ==> !e1'.k.VKNum?)
    ensures Start(s3, lo, r0) && s1.nactvar <= f0
  {
    InfixInv(s1, op, e1, f0);
    hide Infix;
    WaitingKept(s2, s3, e1', f0);
    StartKept(s2, s3, lo, r0);
  }

  lemma LogicFacts(s1: FS, e1: Exp, s2: FS, list: seq<int>, s3: FS, e2: Exp, f0: int, lo: int, r0: Regs)
    requires GoneInv(s1, e1, s2, list, f0) && Stepped(s2, [], s3, e2, f0) && Start(s2, lo, r0)
    ensures Inv(s3) && Usable(s3, e2, f0) && Start(s3, lo, r0)
    ensures var (s4, e) := DischargeVars(s3, e2);
            (forall j :: j in list ==> SameJump(s2.code, s4.code, j)) && Disjoint(list, s4.jpc)
  {
    StartKept(s2, s3, lo, r0);
    DischargeVarsInv(s3, e2, f0);
    var s4 := DischargeVars(s3, e2).0;
    hide DischargeVars;
    FrameTrans(s2, s3, s4, [], [], []);
    forall j | j in list ensures SameJump(s2.code, s4.code, j) && j !in s4.jpc {
      assert Pending(s2.code, j);
    }
  }

  lemma GoneFacts(s1: FS, e1: Exp, s2: FS, list: seq<int>, f0: int)
    requires GoneInv(s1, e1, s2, list, f0)
    ensures s2.freereg == f0 && s2.nactvar == s1.nactvar
  {
  }

  lemma LeafSound(m: Machine, s: FS, x: Expr, lo: int, r0: Regs)
    requires !x.EParen? && !x.EUnary? && !x.EBinary?
    requires LocalsBelow(x, s.nactvar) && !Reach(m, s, lo, r0).Stuck? && Leaf(s, x).0.k <= m.k
    ensures var (s', e) := Leaf(s, x); var q := Reach(m, s, lo, r0);
            Meets(m, s', e, s.freereg, lo, r0, q, Follow(m.ops, m.upvals, s, x, Standing(q), Arrived(m, s, lo, r0)))
  {
    hide UnaryPath, Land, Posfix, Gen, TurnOf, EvalComp, Operate, ConstFolding;
    hide Exec;
  }

  lemma ParenFacts(m: Machine, s: FS, s1: FS, e: Exp, f0: int, lo: int, r0: Regs)
    requires Stepped(s, [], s1, e, f0) && Start(s, lo, r0)
    ensures Inv(s1) && Usable(s1, e, f0) && Start(s1, lo, r0)
    ensures var s2 := DischargeVars(s1, e).0; Fits(m, s2) ==> Fits(m, s1)
  {
    StartKept(s, s1, lo, r0);
    DischargeVarsInv(s1, e, f0);
  }

  lemma PrefixFacts(m: Machine, s: FS, op: UnOpr, s1: FS, e: Exp, f0: int, lo: int, r0: Regs)
    requires Stepped(s, [], s1, e, f0) && Start(s, lo, r0)
    ensures Inv(s1) && ExpInv(s1, e, f0) && Start(s1, lo, r0)
    ensures var s2 := Prefix(m.ops, s1, op, e).0; Fits(m, s2) ==> Fits(m, s1)
  {
    hide Prefix;
    StartKept(s, s1, lo, r0);
    PrefixInv(m.ops, s1, op, e, f0);
  }

  lemma BinaryFacts(m: Machine, s: FS, op: BinOpr, s1: FS, e1: Exp, z: Expr, f0: int, lo: int, r0: Regs)
    requires Stepped(s, [], s1, e1, f0) && Start(s, lo, r0) && LocalsBelow(z, s.nactvar)
    ensures Inv(s1) && ExpInv(s1, e1, f0) && Start(s1, lo, r0) && s1.nactvar <= f0 && s1.nactvar == s.nactvar
    ensures var (s2, e1') := Infix(s1, op, e1); var (s3, e2) := Gen(m.ops, s2, z);
            var s4 := Posfix(m.ops, s3, op, e1', e2).0;
            Inv(s2) && s2.nactvar == s.nactvar && Stepped(s2, [], s3, e2, s2.freereg) &&
            (Fits(m, s4) ==> Fits(m, s1) && Fits(m, s2) && Fits(m, s3))
  {
    StartKept(s, s1, lo, r0);
    LeftInv(s1, op, e1, f0);
    hide Infix, Gen, Posfix;
    var (s2, e1') := Infix(s1, op, e1);
    GenInv(m.ops, s2, z);
    var (s3, e2) := Gen(m.ops, s2, z);
    RightInv(m.ops, s1, op, e1, s2, e1', s3, e2, f0);
    LeftGrows(s1, op, e1, f0);
  }

  lemma LeftGrows(s: FS, op: BinOpr, e: Exp, f0: int)
    requires Inv(s) && ExpInv(s, e, f0)
    ensures Grows(s, Infix(s, op, e).0)
  {
    hide GoIfTrue, GoIfFalse, Exp2RK, Exp2NextReg;
    if op.AndOpr? {
      GoIfTrueInv(s, e, f0);
    } else if op.OrOpr? {
      GoIfFalseInv(s, e, f0);
    } else {
      InfixInv(s, op, e, f0);
    }
  }

  // The registers of a run that has got here.
  function Standing(q: Outcome): Regs {
    if q.Fall? then q.r else map[]
  }

  // The main result.  Whatever code came before, if it brings the run here, then with the
  // code for x the run goes on along the path of x: with its value in place, or by a jump
  // of x's own, or to an error; a run that never got here is left alone.
  lemma {:induction false} GenSound(m: Machine, s: FS, x: Expr, lo: int, r0: Regs)
    requires Inv(s) && LocalsBelow(x, s.nactvar) && Start(s, lo, r0) && !Reach(m, s, lo, r0).Stuck?
    requires Fits(m, Gen(m.ops, s, x).0)
    ensures var (s', e) := Gen(m.ops, s, x); var q := Reach(m, s, lo, r0);
            Meets(m, s', e, s.freereg, lo, r0, q, Follow(m.ops, m.upvals, s, x, Standing(q), Arrived(m, s, lo, r0)))
    decreases x
  {
    var f0, q, c := s.freereg, Reach(m, s, lo, r0), Arrived(m, s, lo, r0);
    hide Exec, Meets, Inv, ExpInv, Start, Prefix, Infix, Posfix, Stepped, Branches, Reach, Arrived, UnaryPath, TurnOf,
      Loaded, Quiet, Folds;
    match x {
      case EParen(y) =>
        GenInv(m.ops, s, y);
        var (s1, e) := Gen(m.ops, s, y);
        ParenFacts(m, s, s1, e, f0, lo, r0);
        GenSound(m, s, y, lo, r0);
        DischargedMeets(m, s1, e, f0, lo, r0, q, Follow(m.ops, m.upvals, s, y, Standing(q), c));
      case EUnary(op, y) =>
        GenInv(m.ops, s, y);
        var (s1, e) := Gen(m.ops, s, y);
        PrefixFacts(m, s, op, s1, e, f0, lo, r0);
        GenSound(m, s, y, lo, r0);
        ConstTrueGen(m, s, y);
        PrefixSound(m, s1, op, e, f0, lo, r0, q, Follow(m.ops, m.upvals, s, y, Standing(q), c));
      case EBinary(op, y, z) =>
        GenInv(m.ops, s, y);
        GenNonreloc(m.ops, s, y);
        var (s1, e1) := Gen(m.ops, s, y);
        var (s2, e1') := Infix(s1, op, e1);
        BinaryFacts(m, s, op, s1, e1, z, f0, lo, r0);
        GenSound(m, s, y, lo, r0);
        ConstTrueGen(m, s, y);
        var p1 := Follow(m.ops, m.upvals, s, y, Standing(q), c);
        LeftSound(m, s1, op, e1, f0, lo, r0, q, p1);
        GenSound(m, s2, z, lo, r0);
        var (s3, e2) := Gen(m.ops, s2, z);
        var q2 := Reach(m, s2, lo, r0);
        var p2 := Follow(m.ops, m.upvals, s2, z, Standing(q2), Arrived(m, s2, lo, r0));
        SamePath(m, s1, op, e1, s2, z, f0, lo, r0, q, p1);
        RightSound(m, s1, op, e1, z, s2, e1', s3, e2, f0, lo, r0, q, p1, p2);
        BinaryFollow(m, s, op, y, z, Standing(q), c, q, p1, s1, e1, s2, e1', e2, p2);
        var (s4, e) := Posfix(m.ops, s3, op, e1', e2);
        if !q.Fall? { AnyPath(m, s4, e, f0, lo, r0, q, JoinedPath(m.ops, s1, op, e1, e1', e2, p1, p2)); }
      case _ =>
        LeafSound(m, s, x, lo, r0);
    }
  }

  // What the second operand starts from.
  function NextCarry(s1: FS, op: BinOpr, e1: Exp, p1: Path): Option<Value> {
    if op.AndOpr? || op.OrOpr? then
      var t := TurnOf(s1, e1, op.OrOpr?, p1); if t.GoesOn? then t.c else None
    else if Ends(p1) && Quiet(s1, op, e1) then p1.c else None
  }

  ghost predicate Proceeds(s1: FS, op: BinOpr, e1: Exp, q: Outcome, p1: Path) {
    q.Fall? && if op.AndOpr? || op.OrOpr? then TurnOf(s1, e1, op.OrOpr?, p1).GoesOn? else Ends(p1)
  }

  // Where the run stands once the left operand is in place or tested.
  ghost predicate LeftDone(m: Machine, s1: FS, op: BinOpr, e1: Exp, f0: int, lo: int, r0: Regs, q: Outcome, p1: Path) {
    var (s2, e1') := Infix(s1, op, e1);
    if op.AndOpr? then Branches(m, s2, e1'.f, false, f0, lo, r0, q, TurnOf(s1, e1, false, p1))
    else if op.OrOpr? then Branches(m, s2, e1'.t, true, f0, lo, r0, q, TurnOf(s1, e1, true, p1))
    else
      Here(m, s2, f0, lo, r0, Lift(p1, q)) &&
      (q.Fall? && Ends(p1) ==>
         MainVal(m, s2, e1', Reach(m, s2, lo, r0).r) == Ok(Delivered(p1)) &&
         Arrived(m, s2, lo, r0) == if Quiet(s1, op, e1) then p1.c else None)
  }

  lemma LeftSound(m: Machine, s1: FS, op: BinOpr, e1: Exp, f0: int, lo: int, r0: Regs, q: Outcome, p1: Path)
    requires Inv(s1) && ExpInv(s1, e1, f0) && Start(s1, lo, r0) && Meets(m, s1, e1, f0, lo, r0, q, p1) && !q.Stuck?
    requires ConstTrue(m, e1) && Fits(m, Infix(s1, op, e1).0) && (e1.k.VNonreloc? ==> e1.k.reg < s1.nactvar)
    ensures LeftDone(m, s1, op, e1, f0, lo, r0, q, p1)
    ensures var s2 := Infix(s1, op, e1).0; Start(s2, lo, r0) && !Reach(m, s2, lo, r0).Stuck?
  {
    hide Exec, Means, Arrives, Start, Inv, ExpInv, GoIfTrue, GoIfFalse, TurnOf;
    if op.AndOpr? {
      GoIfTrueSound(m, s1, e1, f0, lo, r0, q, p1);
    } else if op.OrOpr? {
      GoIfFalseSound(m, s1, e1, f0, lo, r0, q, p1);
    } else {
      hide Infix, Quiet, MainVal;
      InfixSound(m, s1, op, e1, f0, lo, r0, Lift(p1, q));
      if q.Fall? && Ends(p1) { InfixCarry(m, s1, op, e1, f0, lo, r0, q, p1); }
    }
  }

  // The second operand starts where the first one says.
  lemma SamePath(m: Machine, s1: FS, op: BinOpr, e1: Exp, s2: FS, z: Expr, f0: int, lo: int, r0: Regs, q: Outcome,
      p1: Path)
    requires s2 == Infix(s1, op, e1).0 && LeftDone(m, s1, op, e1, f0, lo, r0, q, p1) && LocalsBelow(z, s1.nactvar)
    requires s1.nactvar <= f0
    ensures var q2 := Reach(m, s2, lo, r0);
            Proceeds(s1, op, e1, q, p1) ==>
              Follow(m.ops, m.upvals, s2, z, Standing(q2), Arrived(m, s2, lo, r0)) ==
              Follow(m.ops, m.upvals, s2, z, Standing(q), NextCarry(s1, op, e1, p1))
  {
    hide Exec, Infix, TurnOf, MainVal, Quiet, Follow;
    if Proceeds(s1, op, e1, q, p1) {
      var q2, c := Reach(m, s2, lo, r0), NextCarry(s1, op, e1, p1);
      assert q2.Fall? && Agree(q.r, q2.r, f0) && Arrived(m, s2, lo, r0) == c;
      FollowAgree(m.ops, m.upvals, s2, z, q.r, q2.r, c, s1.nactvar);
    }
  }

  function JoinedPath(ops: Ops, s1: FS, op: BinOpr, e1: Exp, e1': Exp, e2: Exp, p1: Path, p2: Path): Path {
    if op.AndOpr? || op.OrOpr? then
      var t := TurnOf(s1, e1, op.OrOpr?, p1); if t.Stays? then t.p else Loaded(e2, p2)
    else BinaryPath(ops, op, e1', e2, p1, p2)
  }

  lemma RightSound(m: Machine, s1: FS, op: BinOpr, e1: Exp, z: Expr, s2: FS, e1': Exp, s3: FS, e2: Exp,
                   f0: int, lo: int, r0: Regs, q: Outcome, p1: Path, p2: Path)
    requires (s2, e1') == Infix(s1, op, e1) && Stepped(s2, [], s3, e2, s2.freereg) && !q.Stuck?
    requires Inv(s1) && ExpInv(s1, e1, f0) && LocalsBelow(z, s1.nactvar)
    requires Start(s2, lo, r0) && LeftDone(m, s1, op, e1, f0, lo, r0, q, p1)
    requires Meets(m, s3, e2, s2.freereg, lo, r0, Reach(m, s2, lo, r0), p2)
    requires Fits(m, Posfix(m.ops, s3, op, e1', e2).0)
    ensures var (s4, e) := Posfix(m.ops, s3, op, e1', e2);
            Meets(m, s4, e, f0, lo, r0, q, JoinedPath(m.ops, s1, op, e1, e1', e2, p1, p2))
  {
    hide Exec, Meets, Start, Inv, ExpInv, Stepped, Branches, DischargeVars, TurnOf, Loaded, Reach, Arrived, MainVal;
    if op.AndOpr? {
      hide GoIfTrue;
      GoIfTrueInv(s1, e1, f0);
      GoneFacts(s1, e1, s2, e1'.f, f0);
      LogicSound(m, s1, e1, false, s2, e1'.f, s3, e2, f0, lo, r0, q, TurnOf(s1, e1, false, p1), p2);
    } else if op.OrOpr? {
      hide GoIfFalse;
      GoIfFalseInv(s1, e1, f0);
      GoneFacts(s1, e1, s2, e1'.t, f0);
      LogicSound(m, s1, e1, true, s2, e1'.t, s3, e2, f0, lo, r0, q, TurnOf(s1, e1, true, p1), p2);
    } else {
      hide Infix, Posfix, BinaryPath;
      OperatorSound(m, s1, op, e1, z, s2, e1', s3, e2, f0, lo, r0, q, p1, p2);
    }
  }

  // A run that did not get here has no path of its own.
  lemma AnyPath(m: Machine, s: FS, e: Exp, f0: int, lo: int, r0: Regs, q: Outcome, p: Path)
    requires Meets(m, s, e, f0, lo, r0, q, p) && !q.Fall?
    ensures forall p' :: Meets(m, s, e, f0, lo, r0, q, p')
  {
    hide Means;
  }

  // The two operands' paths joined are the path of the whole.
  lemma BinaryFollow(m: Machine, s: FS, op: BinOpr, y: Expr, z: Expr, r: Regs, c: Option<Value>, q: Outcome, p1: Path,
                     s1: FS, e1: Exp, s2: FS, e1': Exp, e2: Exp, p2: Path)
    requires r == Standing(q) && p1 == Follow(m.ops, m.upvals, s, y, r, c)
    requires (s1, e1) == Gen(m.ops, s, y) && (s2, e1') == Infix(s1, op, e1) && e2 == Gen(m.ops, s2, z).1
    requires Proceeds(s1, op, e1, q, p1) ==> p2 == Follow(m.ops, m.upvals, s2, z, r, NextCarry(s1, op, e1, p1))
    ensures q.Fall? ==>
              Follow(m.ops, m.upvals, s, EBinary(op, y, z), r, c) ==
              JoinedPath(m.ops, s1, op, e1, e1', e2, p1, p2)
  {
    hide Gen, Infix, TurnOf, Loaded, Quiet, Folds;
  }
}
