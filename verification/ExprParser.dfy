// The expression parser: it consumes tokens and drives the code generator, one
// operator at a time.

module ExprParsers {
  import opened LuaValue
  import opened LuaVM
  import opened CodeGen
  import opened CodeGenInv
  import opened JumpLists
  import opened FuncStates
  import opened Precedence
  import opened Options

  // Names resolve to active locals.
  ghost predicate LocalsNamed(toks: seq<Token>, nactvar: int) {
    forall i :: 0 <= i < |toks| && toks[i].TLocal? ==> toks[i].reg < nactvar
  }

  class Parser {
    const priorities: Priorities
    const toks: seq<Token>
    const fs: FuncState
    var pos: nat
    var nCcalls: int  // levels of nesting in use

    constructor (priorities: Priorities, toks: seq<Token>, fs: FuncState, nCcalls: int)
      ensures this.priorities == priorities && this.toks == toks && this.fs == fs && pos == 0 && this.nCcalls == nCcalls
    {
      this.priorities, this.toks, this.fs, pos, this.nCcalls := priorities, toks, fs, 0, nCcalls;
    }

    function Room(): int
      reads this`nCcalls
    {
      LUAI_MAXCCALLS - nCcalls
    }

    // What one stretch of parsing has done, when it succeeds.
    twostate predicate Generated(x: Expr, e: ExpDesc, a: Exp)
      reads this, fs
    {
      && LocalsBelow(x, old(fs.model.nactvar))
      && (fs.model, a) == Gen(fs.ops, old(fs.model), x) && fs.Valid() && fs.Denotes(e, a)
      && LinksKept(old(fs.model), old(fs.code), fs.code, [])
    }

    // subexpr: the tree it reads, compiled as it goes.  It fails on a syntax error.
    method Subexpr(limit: int) returns (ok: bool, e: ExpDesc, ghost x: Expr, ghost a: Exp)
      requires pos <= |toks| && fs.Valid() && LocalsNamed(toks, fs.model.nactvar)
      modifies this`pos, this`nCcalls, fs
      ensures var res := SubExpr(priorities, toks, old(pos), limit, old(Room()));
              if ok then res == Tree(x, pos) && Generated(x, e, a) && nCcalls == old(nCcalls) else !res.Tree?
      decreases |toks| - pos, 2
    {
      hide SubExpr, Operators, Precedence.Operand, Gen, Inv, ExpInv, LinksKept, Stepped, Frame, LocalsNamed,
        LocalsBelow, FuncState.Denotes, GetBinOpr, ListsInv, At, FuncState.Matched;
      ghost var m0, c0, start, room := fs.model, fs.code, pos, Room();
      SubExprStarts(priorities, toks, pos, limit, room);
      nCcalls := nCcalls + 1;
      if nCcalls > LUAI_MAXCCALLS || pos == |toks| {
        ok, e, x, a := false, ExpDesc(VNil, NO_JUMP, NO_JUMP), ENil, Exp(VNil, [], []);
        return;
      }
      ok, e, x, a := Operand();
      if !ok { return; }
      ghost var p := priorities;
      OperatorsAt(p, toks, x, pos, limit, room - 1);
      var op := GetBinOpr(At(toks, pos));
      while op.Some? && priorities.left(op.value) > limit
        invariant ok && start < pos <= |toks| && op == GetBinOpr(At(toks, pos))
        invariant SubExpr(p, toks, start, limit, room) == Operators(p, toks, x, pos, limit, room - 1)
        invariant Room() == room - 1
        invariant LocalsBelow(x, m0.nactvar) && (fs.model, a) == Gen(fs.ops, m0, x) && fs.Valid() && fs.Denotes(e, a)
        invariant LinksKept(m0, c0, fs.code, [])
        decreases |toks| - pos
      {
        ghost var m1, c1, x1, a1 := fs.model, fs.code, x, a;
        GenInv(fs.ops, m0, x1);
        SteppedParts(m0, m1, a1, m0.freereg);
        OperatorsAt(p, toks, x, pos, limit, room - 1);
        InText(toks, pos);
        ok, e, x, a := Operation(op.value, e, x, a, m0);
        if !ok { return; }
        LinksTrans(m0, c0, m1, c1, fs.code, [], Own(a1), []);
        op := GetBinOpr(At(toks, pos));
      }
      OperatorsAt(p, toks, x, pos, limit, room - 1);
      nCcalls := nCcalls - 1;
    }

    // A unary operator and its operand, or a simple expression.
    method Operand() returns (ok: bool, e: ExpDesc, ghost x: Expr, ghost a: Exp)
      requires pos < |toks| && fs.Valid() && LocalsNamed(toks, fs.model.nactvar)
      modifies this`pos, this`nCcalls, fs
      ensures var res := Precedence.Operand(priorities, toks, old(pos), old(Room()));
              if ok then res == Tree(x, pos) && Generated(x, e, a) && nCcalls == old(nCcalls) else !res.Tree?
      decreases |toks| - pos, 1
    {
      hide SubExpr;
      var uop := GetUnOpr(toks[pos]);
      if uop.Some? {
        ok, e, x, a := Unary(uop.value);
      } else if toks[pos].TLParen? {
        ok, e, x, a := Parenthesised();
      } else {
        ok, e, x, a := Simple();
      }
    }

    method Unary(op: UnOpr) returns (ok: bool, e: ExpDesc, ghost x: Expr, ghost a: Exp)
      requires pos < |toks| && fs.Valid() && LocalsNamed(toks, fs.model.nactvar)
      modifies this`pos, this`nCcalls, fs
      ensures var y := SubExpr(priorities, toks, old(pos) + 1, priorities.unary, old(Room()));
              if ok then y.Tree? && x == EUnary(op, y.x) && pos == y.next && Generated(x, e, a) &&
              nCcalls == old(nCcalls) else !y.Tree?
      decreases |toks| - pos, 0
    {
      hide SubExpr, Inv, ExpInv, LinksKept, Stepped, Frame, CodeGen.Prefix, LocalsNamed, Threads;
      ghost var m0, c0 := fs.model, fs.code;
      pos := pos + 1;
      ok, e, x, a := Subexpr(priorities.unary);
      if !ok { return; }
      ghost var m1, c1, a1 := fs.model, fs.code, a;
      GenInv(fs.ops, m0, x);
      SteppedParts(m0, m1, a1, m0.freereg);
      e, a := fs.Prefix(op, e, a, m0.freereg);
      LinksTrans(m0, c0, m1, c1, fs.code, [], Own(a1), []);
      x := EUnary(op, x);
    }

    method Parenthesised() returns (ok: bool, e: ExpDesc, ghost x: Expr, ghost a: Exp)
      requires pos < |toks| && fs.Valid() && LocalsNamed(toks, fs.model.nactvar)
      modifies this`pos, this`nCcalls, fs
      ensures var y := SubExpr(priorities, toks, old(pos) + 1, 0, old(Room()));
              if ok then
                y.Tree? && At(toks, y.next).TRParen? && x == EParen(y.x) && pos == y.next + 1 && Generated(x, e, a) &&
                nCcalls == old(nCcalls)
              else !y.Tree? || !At(toks, y.next).TRParen?
      decreases |toks| - pos, 0
    {
      hide SubExpr, Inv, ExpInv, LinksKept, Stepped, Frame, CodeGen.DischargeVars, LocalsNamed, Threads;
      ghost var m0, c0 := fs.model, fs.code;
      pos := pos + 1;
      ok, e, x, a := Subexpr(0);
      if !ok { return; }
      if !At(toks, pos).TRParen? {
        ok := false;
        return;
      }
      pos := pos + 1;
      ghost var m1, c1, a1 := fs.model, fs.code, a;
      GenInv(fs.ops, m0, x);
      SteppedParts(m0, m1, a1, m0.freereg);
      DischargedInv(m1, a1, m0.freereg);
      e, a := fs.DischargeVars(e, a, m0.freereg);
      LinksTrans(m0, c0, m1, c1, fs.code, [], [], []);
      x := EParen(x);
    }

    // simpleexp, for the operands that are one token.
    method Simple() returns (ok: bool, e: ExpDesc, ghost x: Expr, ghost a: Exp)
      requires pos < |toks| && fs.Valid() && LocalsNamed(toks, fs.model.nactvar)
      modifies this`pos, this`nCcalls, fs
      ensures var leaf := LeafExpr(toks[old(pos)]);
              if ok then leaf == Some(x) && pos == old(pos) + 1 && Generated(x, e, a) && nCcalls == old(nCcalls)
              else leaf.None?
    {
      hide Inv, PendingList, LandsBy, IndexIn, IsTest, Posfix, Distinct, DischargeVars, HasJumps, TestsPaired, Infix,
        Prefix;
      var t := toks[pos];
      ok := true;
      x := ENil;
      var kind := VNil;
      ghost var m0 := fs.model;
      match t {
        case TNil =>
        case TTrue => kind, x := VTrue, ETrue;
        case TFalse => kind, x := VFalse, EFalse;
        case TNum(n) => kind, x := VKNum(n), ENum(n);
        case TStr(str) =>
          AddKInv(fs.model, Str(str));
          var i := fs.AddK(Str(str));
          kind, x := VK(i), EStr(str);
        case TLocal(r) => kind, x := VLocal(r), ELocal(r);
        case TUpval(u) => kind, x := VUpval(u), EUpval(u);
        case TLParen => ok := false;
        case TRParen => ok := false;
        case TNot => ok := false;
        case TMinus => ok := false;
        case TLen => ok := false;
        case TBang => ok := false;
        case TBinary(_) => ok := false;
        case TOther => ok := false;
      }
      e, a := ExpDesc(kind, NO_JUMP, NO_JUMP), Exp(kind, [], []);
      if ok { pos := pos + 1; }
    }

    // A binary operator and its right operand, after the left operand x.
    method Operation(op: BinOpr, e1: ExpDesc, ghost x: Expr, ghost a1: Exp, ghost m0: FS)
      returns (ok: bool, e: ExpDesc, ghost x': Expr, ghost a: Exp)
      requires pos < |toks| && fs.Valid() && LocalsNamed(toks, m0.nactvar)
      requires Inv(m0) && LocalsBelow(x, m0.nactvar) && (fs.model, a1) == Gen(fs.ops, m0, x) && fs.Denotes(e1, a1)
      modifies this`pos, this`nCcalls, fs
      ensures var y := SubExpr(priorities, toks, old(pos) + 1, priorities.right(op), old(Room()));
              if ok then
                y.Tree? && x' == EBinary(op, x, y.x) && pos == y.next && nCcalls == old(nCcalls) &&
                old(pos) < pos <= |toks| &&
                LocalsBelow(x', m0.nactvar) && (fs.model, a) == Gen(fs.ops, m0, x') && fs.Valid() && fs.Denotes(e, a) &&
                LinksKept(old(fs.model), old(fs.code), fs.code, Own(a1))
              else !y.Tree?
      decreases |toks| - pos, 0
    {
      hide SubExpr, Inv, ExpInv, LinksKept, Stepped, Frame, CodeGen.Infix, CodeGen.Posfix, Gen, Fresh, LocalsNamed,
        Waiting, Waits, Threads, Distinct;
      ghost var f0 := m0.freereg;
      ghost var m1, c1 := fs.model, fs.code;
      GenInv(fs.ops, m0, x);
      SteppedParts(m0, m1, a1, f0);
      LeftInv(m1, op, a1, f0);
      pos := pos + 1;
      var el;
      ghost var al;
      el, al := fs.Infix(op, e1, a1, f0);
      ghost var m2, c2 := fs.model, fs.code;
      var er;
      ghost var y, ar;
      ok, er, y, ar := Subexpr(priorities.right(op));
      if !ok {
        e, x', a := er, x, ar;
        return;
      }
      ghost var m3, c3 := fs.model, fs.code;
      GenInv(fs.ops, m2, y);
      BetweenOperands(fs.ops, m1, op, a1, m2, al, m3, ar, f0);
      LeftLists(m1, op, a1, m2, al, f0);
      LeftListsStay(m2, c2, c3, op, el, al, f0);
      LinksTrans(m1, c1, m2, c2, c3, Own(a1), [], Own(a1));
      e, a := fs.Posfix(op, el, er, al, ar, f0, m2.freereg);
      LinksTrans(m1, c1, m3, c3, fs.code, Own(a1), Own(ar) + LeftList(op, al), Own(a1));
      x' := EBinary(op, x, y);
      GenBinary(fs.ops, m0, op, x, y);
      GenInv(fs.ops, m0, x');
      SteppedParts(m0, fs.model, a, f0);
    }
  }

  // The jumps of a left operand that the right operand's are added to.
  function LeftList(op: BinOpr, a: Exp): seq<int> {
    if op.AndOpr? then a.f else if op.OrOpr? then a.t else []
  }

  lemma GenBinary(ops: Ops, s: FS, op: BinOpr, y: Expr, z: Expr)
    ensures var (s1, e1) := Gen(ops, s, y);
            var (s2, e1') := CodeGen.Infix(s1, op, e1);
            var (s3, e2) := Gen(ops, s2, z);
            Gen(ops, s, EBinary(op, y, z)) == CodeGen.Posfix(ops, s3, op, e1', e2)
  {
    hide CodeGen.Infix, CodeGen.Posfix;
  }

  lemma SteppedParts(m0: FS, m: FS, a: Exp, f0: int)
    requires Stepped(m0, [], m, a, f0)
    ensures Inv(m) && ExpInv(m, a, f0) && Frame(m0, m, []) && Fresh(m0, [], Own(a)) && m.nactvar == m0.nactvar
  {
  }

  lemma DischargedInv(m: FS, a: Exp, f0: int)
    requires Inv(m) && ExpInv(m, a, f0)
    ensures Inv(CodeGen.DischargeVars(m, a).0)
  {
    DischargeVarsInv(m, a, f0);
    hide CodeGen.DischargeVars;
  }

  lemma InText(toks: seq<Token>, i: nat)
    requires !At(toks, i).TOther? || GetBinOpr(At(toks, i)).Some?
    ensures i < |toks|
  {
  }

  lemma SubExprStarts(p: Priorities, toks: seq<Token>, i: nat, limit: int, room: int)
    requires i <= |toks|
    ensures SubExpr(p, toks, i, limit, room) ==
            if room <= 0 then TooDeep
            else if i == |toks| then Syntax
            else var first := Precedence.Operand(p, toks, i, room - 1);
                 if first.Tree? then Operators(p, toks, first.x, first.next, limit, room - 1) else first
  {
    hide Operators, Precedence.Operand;
  }

  lemma OperatorsAt(p: Priorities, toks: seq<Token>, x: Expr, i: nat, limit: int, room: int)
    requires i <= |toks|
    ensures Operators(p, toks, x, i, limit, room) ==
            var op := GetBinOpr(At(toks, i));
            if op.None? || p.left(op.value) <= limit then Tree(x, i)
            else
              var y := SubExpr(p, toks, i + 1, p.right(op.value), room);
              if y.Tree? then Operators(p, toks, EBinary(op.value, x, y.x), y.next, limit, room) else y
  {
    hide SubExpr;
  }

  lemma BetweenOperands(ops: Ops, m1: FS, op: BinOpr, a1: Exp, m2: FS, al: Exp, m3: FS, ar: Exp, f0: int)
    requires Inv(m1) && ExpInv(m1, a1, f0) && (m2, al) == CodeGen.Infix(m1, op, a1)
    requires Stepped(m2, [], m3, ar, m2.freereg)
    ensures Inv(m3) && ExpInv(m3, ar, m2.freereg) && Frame(m1, m3, Own(a1))
    ensures Fresh(m1, Own(a1), Own(ar) + LeftList(op, al))
    ensures if op.AndOpr? then Waits(m3, al.f, ar) else if op.OrOpr? then Waits(m3, al.t, ar)
            else Waiting(m3, al, f0, m2.freereg) && (op.ConcatOpr? ==> al == Exp(VNonreloc(f0), [], [])) &&
                 (op.CompOpr? ==> !al.k.VKNum?)
  {
    if op.AndOpr? {
      GoIfTrueInv(m1, a1, f0);
      hide CodeGen.Infix;
      BetweenLogic(m1, a1, m2, al.f, m3, ar, f0);
    } else if op.OrOpr? {
      GoIfFalseInv(m1, a1, f0);
      hide CodeGen.Infix;
      BetweenLogic(m1, a1, m2, al.t, m3, ar, f0);
    } else {
      InfixInv(m1, op, a1, f0);
      hide CodeGen.Infix;
      WaitingKept(m2, m3, al, f0);
      FrameTrans(m1, m2, m3, Own(a1), [], Own(a1));
    }
  }

  lemma BetweenLogic(m1: FS, a1: Exp, m2: FS, list: seq<int>, m3: FS, ar: Exp, f0: int)
    requires GoneInv(m1, a1, m2, list, f0) && Stepped(m2, [], m3, ar, m2.freereg)
    ensures Frame(m1, m3, Own(a1)) && Fresh(m1, Own(a1), Own(ar) + list) && Waits(m3, list, ar)
  {
    FrameTrans(m1, m2, m3, Own(a1), [], Own(a1));
    ListKept(m2, m3, [], list);
  }

  lemma LeftLists(m1: FS, op: BinOpr, a1: Exp, m2: FS, al: Exp, f0: int)
    requires Inv(m1) && ExpInv(m1, a1, f0) && (m2, al) == CodeGen.Infix(m1, op, a1)
    ensures PendingList(m2.code, al.t) && PendingList(m2.code, al.f) && Disjoint(al.t, m2.jpc) && Disjoint(al.f, m2.jpc)
    ensures Frame(m1, m2, Own(a1))
  {
    if op.AndOpr? {
      GoIfTrueInv(m1, a1, f0);
      assert al.t == [];
    } else if op.OrOpr? {
      GoIfFalseInv(m1, a1, f0);
      assert al.f == [];
    } else {
      InfixInv(m1, op, a1, f0);
    }
  }

  lemma LeftListsStay(m2: FS, c2: seq<Instr>, c3: seq<Instr>, op: BinOpr, e: ExpDesc, a: Exp, f0: int)
    requires LinksKept(m2, c2, c3, []) && Threads(c2, e.t, a.t) && Threads(c2, e.f, a.f)
    requires PendingList(m2.code, a.t) && PendingList(m2.code, a.f) && Disjoint(a.t, m2.jpc) && Disjoint(a.f, m2.jpc)
    ensures Threads(c3, e.t, a.t) && Threads(c3, e.f, a.f)
  {
    ListStays(m2, c2, c3, [], e.t, a.t);
    ListStays(m2, c2, c3, [], e.f, a.f);
  }
}
