// Operator-precedence parsing: subexpr as a function on token sequences, and the
// trees it can build.

module Precedence {
  import opened LuaValue
  import opened Options

  datatype Token =
    | TNil | TTrue | TFalse
    | TNum(n: real)
    | TStr(s: string)
    | TLocal(reg: nat)   // a name, as singlevar resolves it
    | TUpval(idx: nat)
    | TLParen | TRParen
    | TNot | TMinus | TLen | TBang
    | TBinary(op: BinOpr)  // any binary operator but `-'
    | TOther               // ends an expression

  // The priority table: larger binds tighter.
  datatype Priorities = Priorities(left: BinOpr -> int, right: BinOpr -> int, unary: int)

  function GetUnOpr(t: Token): Option<UnOpr> {
    match t
    case TNot => Some(NotOpr)
    case TMinus => Some(MinusOpr)
    case TLen => Some(LenOpr)
    case TBang => Some(BNotOpr)
    case _ => None
  }

  function GetBinOpr(t: Token): Option<BinOpr> {
    match t
    case TMinus => Some(ArithOpr(SUB))
    case TBinary(op) => if op == ArithOpr(SUB) then None else Some(op)
    case _ => None
  }

  function UnToken(op: UnOpr): Token {
    match op
    case NotOpr => TNot
    case MinusOpr => TMinus
    case LenOpr => TLen
    case BNotOpr => TBang
  }

  function BinToken(op: BinOpr): Token {
    if op == ArithOpr(SUB) then TMinus else TBinary(op)
  }

  function LeafExpr(t: Token): Option<Expr> {
    match t
    case TNil => Some(ENil)
    case TTrue => Some(ETrue)
    case TFalse => Some(EFalse)
    case TNum(n) => Some(ENum(n))
    case TStr(s) => Some(EStr(s))
    case TLocal(r) => Some(ELocal(r))
    case TUpval(u) => Some(EUpval(u))
    case _ => None
  }

  function At(toks: seq<Token>, i: nat): Token {
    if i < |toks| then toks[i] else TOther
  }

  // The binary operator at position i, if it binds tighter than `limit'.
  function Continues(p: Priorities, toks: seq<Token>, i: nat, limit: int): Option<BinOpr> {
    var op := GetBinOpr(At(toks, i));
    if op.Some? && p.left(op.value) > limit then op else None
  }

  // A tree and where it ends, or the first error met.
  datatype Parsed = Syntax | TooDeep | Tree(x: Expr, next: nat)

  const LUAI_MAXCCALLS: int := 200

  // room: how many more levels of nesting there may be
  function SubExpr(p: Priorities, toks: seq<Token>, i: nat, limit: int, room: int): (res: Parsed)
    ensures res.Tree? ==> i < res.next <= |toks|
    decreases |toks| - i, 2
  {
    if room <= 0 then TooDeep
    else if i >= |toks| then Syntax
    else
      var first := Operand(p, toks, i, room - 1);
      if first.Tree? then Operators(p, toks, first.x, first.next, limit, room - 1) else first
  }

  function Operand(p: Priorities, toks: seq<Token>, i: nat, room: int): (res: Parsed)
    requires i < |toks|
    ensures res.Tree? ==> i < res.next <= |toks|
    decreases |toks| - i, 1
  {
    var uop := GetUnOpr(toks[i]);
    if uop.Some? then
      var y := SubExpr(p, toks, i + 1, p.unary, room);
      if y.Tree? then Tree(EUnary(uop.value, y.x), y.next) else y
    else if toks[i].TLParen? then
      var y := SubExpr(p, toks, i + 1, 0, room);
      if !y.Tree? then y else if At(toks, y.next).TRParen? then Tree(EParen(y.x), y.next + 1) else Syntax
    else
      var leaf := LeafExpr(toks[i]);
      if leaf.Some? then Tree(leaf.value, i + 1) else Syntax
  }

  function Operators(p: Priorities, toks: seq<Token>, x: Expr, i: nat, limit: int, room: int): (res: Parsed)
    requires i <= |toks|
    ensures res.Tree? ==> i <= res.next <= |toks|
    decreases |toks| - i, 0
  {
    var op := Continues(p, toks, i, limit);
    if op.None? then Tree(x, i)
    else
      var y := SubExpr(p, toks, i + 1, p.right(op.value), room);
      if y.Tree? then Operators(p, toks, EBinary(op.value, x, y.x), y.next, limit, room) else y
  }

  // ----- trees -----

  function Yield(x: Expr): seq<Token> {
    match x
    case ENil => [TNil]
    case ETrue => [TTrue]
    case EFalse => [TFalse]
    case ENum(n) => [TNum(n)]
    case EStr(s) => [TStr(s)]
    case ELocal(r) => [TLocal(r)]
    case EUpval(u) => [TUpval(u)]
    case EParen(y) => [TLParen] + Yield(y) + [TRParen]
    case EUnary(op, y) => [UnToken(op)] + Yield(y)
    case EBinary(op, y, z) => Yield(y) + [BinToken(op)] + Yield(z)
  }

  // How deep calls nest inside the one that reads x.
  function Nest(x: Expr): nat {
    match x
    case EParen(y) => 1 + Nest(y)
    case EUnary(_, y) => 1 + Nest(y)
    case EBinary(_, y, z) => if Nest(y) <= Nest(z) then 1 + Nest(z) else Nest(y)
    case _ => 0
  }

  // Every operator on the left edge of x binds tighter than `limit'.
  predicate LeftAbove(p: Priorities, x: Expr, limit: int) {
    x.EBinary? ==> p.left(x.bop) > limit && LeftAbove(p, x.l, limit)
  }

  // No operator on the right edge of x would take an operator of left priority n
  // that follows.
  predicate RightYields(p: Priorities, x: Expr, n: int) {
    (x.EBinary? ==> n <= p.right(x.bop) && RightYields(p, x.r, n)) &&
    (x.EUnary? ==> n <= p.unary && RightYields(p, x.e, n))
  }

  // The tree respects the priorities: read without its shape, it has only this one.
  predicate Respects(p: Priorities, x: Expr) {
    match x
    case EParen(y) => Respects(p, y) && LeftAbove(p, y, 0)
    case EUnary(op, y) => Respects(p, y) && LeftAbove(p, y, p.unary)
    case EBinary(op, y, z) =>
      Respects(p, y) && Respects(p, z) && RightYields(p, y, p.left(op)) && LeftAbove(p, z, p.right(op))
    case _ => true
  }

  // What follows position i is not taken by x, nor by a parser working at `limit'.
  predicate StopsAfter(p: Priorities, toks: seq<Token>, x: Expr, i: nat) {
    var op := GetBinOpr(At(toks, i));
    op.Some? ==> RightYields(p, x, p.left(op.value))
  }

  // ----- what subexpr builds -----

  // x reads as the tokens from i to n, respects the priorities, starts above `limit', and
  // leaves what follows it alone.
  ghost predicate Built(p: Priorities, toks: seq<Token>, i: nat, limit: int, x: Expr, n: nat) {
    && i < n <= |toks| && Yield(x) == toks[i..n]
    && Respects(p, x) && LeftAbove(p, x, limit) && StopsAfter(p, toks, x, n)
  }

  lemma {:induction false} SubExprSound(p: Priorities, toks: seq<Token>, i: nat, limit: int, room: int)
    ensures var res := SubExpr(p, toks, i, limit, room);
            res.Tree? ==>
              && Built(p, toks, i, limit, res.x, res.next) && Nest(res.x) < room
              && Continues(p, toks, res.next, limit).None?
    decreases |toks| - i, 2
  {
    hide Operand, Operators, Built, Nest, Continues;
    if i < |toks| && room > 0 {
      OperandSound(p, toks, i, limit, room - 1);
      var first := Operand(p, toks, i, room - 1);
      if first.Tree? { OperatorsSound(p, toks, i, first.x, first.next, limit, room - 1); }
    }
  }

  lemma {:induction false} OperandSound(p: Priorities, toks: seq<Token>, i: nat, limit: int, room: int)
    requires i < |toks|
    ensures var res := Operand(p, toks, i, room);
            res.Tree? ==> Built(p, toks, i, limit, res.x, res.next) && (room >= 0 ==> Nest(res.x) <= room)
    decreases |toks| - i, 1
  {
    hide SubExpr, Operators, Built, Continues, Yield, Nest;
    if GetUnOpr(toks[i]).Some? {
      SubExprSound(p, toks, i + 1, p.unary, room);
      var y := SubExpr(p, toks, i + 1, p.unary, room);
      if y.Tree? { UnaryBuilt(p, toks, i, GetUnOpr(toks[i]).value, y.x, y.next, limit); }
    } else if toks[i].TLParen? {
      SubExprSound(p, toks, i + 1, 0, room);
      var y := SubExpr(p, toks, i + 1, 0, room);
      if y.Tree? && At(toks, y.next).TRParen? { ParenBuilt(p, toks, i, y.x, y.next, limit); }
    } else if LeafExpr(toks[i]).Some? {
      LeafBuilt(p, toks, i, limit);
    }
  }

  lemma UnaryBuilt(p: Priorities, toks: seq<Token>, i: nat, op: UnOpr, y: Expr, n: nat, limit: int)
    requires i < |toks| && GetUnOpr(toks[i]) == Some(op)
    requires Built(p, toks, i + 1, p.unary, y, n) && Continues(p, toks, n, p.unary).None?
    ensures Built(p, toks, i, limit, EUnary(op, y), n) && Nest(EUnary(op, y)) == 1 + Nest(y)
  {
    hide Yield, Respects, RightYields, LeftAbove;
    UnaryParts(p, op, y);
    Glue(toks, i, i, n);
    assert toks[i..i] == [];
  }

  // What is said of a tree, for one that has a unary operator or parentheses on top.
  lemma UnaryParts(p: Priorities, op: UnOpr, y: Expr)
    ensures var x := EUnary(op, y);
            && Yield(x) == [UnToken(op)] + Yield(y) && Nest(x) == 1 + Nest(y)
            && Respects(p, x) == (Respects(p, y) && LeftAbove(p, y, p.unary))
            && (forall n :: LeftAbove(p, x, n))
            && forall n :: RightYields(p, x, n) == (n <= p.unary && RightYields(p, y, n))
    ensures var x := EParen(y);
            && Yield(x) == [TLParen] + Yield(y) + [TRParen] && Nest(x) == 1 + Nest(y)
            && Respects(p, x) == (Respects(p, y) && LeftAbove(p, y, 0))
            && (forall n :: LeftAbove(p, x, n)) && forall n :: RightYields(p, x, n)
  {
  }

  lemma ParenBuilt(p: Priorities, toks: seq<Token>, i: nat, y: Expr, n: nat, limit: int)
    requires i < |toks| && toks[i] == TLParen && Built(p, toks, i + 1, 0, y, n) && At(toks, n) == TRParen
    ensures Built(p, toks, i, limit, EParen(y), n + 1) && Nest(EParen(y)) == 1 + Nest(y)
  {
    hide Yield, Respects, RightYields, LeftAbove;
    UnaryParts(p, NotOpr, y);
    Glue(toks, i, n, n + 1);
    Glue(toks, i, i, n);
    assert toks[i..i] == [] && toks[n + 1..n + 1] == [];
  }

  lemma LeafBuilt(p: Priorities, toks: seq<Token>, i: nat, limit: int)
    requires i < |toks| && LeafExpr(toks[i]).Some?
    ensures Built(p, toks, i, limit, LeafExpr(toks[i]).value, i + 1)
    ensures Nest(LeafExpr(toks[i]).value) == 0
  {
  }

  lemma {:induction false} OperatorsSound(p: Priorities, toks: seq<Token>, start: nat, x: Expr, i: nat, limit: int,
      room: int)
    requires start < i <= |toks| && Built(p, toks, start, limit, x, i) && Nest(x) <= room
    ensures var res := Operators(p, toks, x, i, limit, room);
            res.Tree? ==>
              && Built(p, toks, start, limit, res.x, res.next) && Nest(res.x) <= room
              && Continues(p, toks, res.next, limit).None?
    decreases |toks| - i, 0
  {
    hide SubExpr, Built, Continues;
    var op := Continues(p, toks, i, limit);
    if op.Some? {
      var y := SubExpr(p, toks, i + 1, p.right(op.value), room);
      SubExprSound(p, toks, i + 1, p.right(op.value), room);
      if y.Tree? {
        BinaryBuilt(p, toks, start, x, i, op.value, y.x, y.next, limit);
        OperatorsSound(p, toks, start, EBinary(op.value, x, y.x), y.next, limit, room);
      }
    }
  }

  lemma BinaryBuilt(p: Priorities, toks: seq<Token>, start: nat, x: Expr, i: nat, op: BinOpr, y: Expr, n: nat,
      limit: int)
    requires Built(p, toks, start, limit, x, i) && Continues(p, toks, i, limit) == Some(op)
    requires Built(p, toks, i + 1, p.right(op), y, n) && Continues(p, toks, n, p.right(op)).None?
    ensures Built(p, toks, start, limit, EBinary(op, x, y), n)
  {
    Glue(toks, start, i, n);
    assert Yield(EBinary(op, x, y)) == Yield(x) + [BinToken(op)] + Yield(y);
    hide Yield;
  }

  lemma Glue(toks: seq<Token>, a: nat, b: nat, c: nat)
    requires a <= b < c <= |toks|
    ensures toks[a..c] == toks[a..b] + [toks[b]] + toks[b + 1..c]
  {
    assert toks[b..c] == [toks[b]] + toks[b + 1..c];
  }

  // ----- every such tree is built -----

  lemma {:induction false} YieldNonEmpty(x: Expr)
    ensures |Yield(x)| > 0
    decreases x
  {
    match x {
      case EBinary(op, y, z) => YieldNonEmpty(y);
      case _ =>
    }
  }

  lemma Inner(toks: seq<Token>, i: nat, n: nat, s: seq<Token>)
    requires i <= n <= |toks| && toks[i..n] == [TLParen] + s + [TRParen]
    ensures n == i + |s| + 2 && toks[i + 1..n - 1] == s && toks[n - 1] == TRParen
  {
    assert |toks[i..n]| == |s| + 2;
    forall k | 0 <= k < |s| ensures toks[i + 1 + k] == s[k] {
      assert toks[i..n][k + 1] == s[k];
    }
    assert toks[n - 1] == toks[i..n][|s| + 1];
  }

  lemma Three(toks: seq<Token>, i: nat, n: nat, s: seq<Token>, t: Token, u: seq<Token>)
    requires i <= n <= |toks| && toks[i..n] == s + [t] + u
    ensures var mid := i + |s|;
            n == mid + 1 + |u| && toks[i..mid] == s && toks[mid] == t && toks[mid + 1..n] == u
  {
    var all := s + [t] + u;
    assert |toks[i..n]| == |s| + 1 + |u|;
    forall k | 0 <= k < |s| ensures toks[i + k] == s[k] { assert toks[i..n][k] == all[k]; }
    assert toks[i + |s|] == toks[i..n][|s|] == all[|s|];
    forall k | 0 <= k < |u| ensures toks[i + |s| + 1 + k] == u[k] {
      assert toks[i..n][|s| + 1 + k] == all[|s| + 1 + k];
    }
  }

  // Reading a tree's tokens, subexpr first gets to the tree, then goes on from there.
  lemma {:induction false} SubExprReads(p: Priorities, toks: seq<Token>, i: nat, x: Expr, n: nat, limit: int, room: int)
    requires Built(p, toks, i, limit, x, n) && Nest(x) < room
    ensures n <= |toks| && SubExpr(p, toks, i, limit, room) == Operators(p, toks, x, n, limit, room - 1)
    decreases x, 1
  {
    hide SubExpr, Operators, Operand, Built, Continues, Yield;
    if x.EBinary? {
      var mid := BuiltBinary(p, toks, i, limit, x, n);
      SubExprReads(p, toks, i, x.l, mid, limit, room);
      SubExprReads(p, toks, mid + 1, x.r, n, p.right(x.bop), room - 1);
      OperatorsStop(p, toks, x.r, n, p.right(x.bop), room - 2);
      OperatorsGo(p, toks, x.l, mid, x.bop, x.r, n, limit, room - 1);
    } else {
      OperandReads(p, toks, i, x, n, limit, room - 1);
      OperandFirst(p, toks, i, x, n, limit, room);
    }
  }

  lemma {:induction false} OperandReads(p: Priorities, toks: seq<Token>, i: nat, x: Expr, n: nat, limit: int, room: int)
    requires !x.EBinary? && Built(p, toks, i, limit, x, n) && Nest(x) <= room
    ensures i < |toks| && Operand(p, toks, i, room) == Tree(x, n)
    decreases x, 0
  {
    hide SubExpr, Operators, Operand, Built, Continues, Yield;
    if x.EParen? {
      BuiltParen(p, toks, i, limit, x, n);
      SubExprReads(p, toks, i + 1, x.e, n - 1, 0, room);
      OperatorsStop(p, toks, x.e, n - 1, 0, room - 1);
      ReadsParen(p, toks, i, x, n, room);
    } else if x.EUnary? {
      BuiltUnary(p, toks, i, limit, x, n);
      SubExprReads(p, toks, i + 1, x.e, n, p.unary, room);
      OperatorsStop(p, toks, x.e, n, p.unary, room - 1);
      ReadsUnary(p, toks, i, x, n, room);
    } else {
      BuiltLeaf(p, toks, i, limit, x, n);
      ReadsLeaf(p, toks, i, x, room);
    }
  }

  lemma OperandFirst(p: Priorities, toks: seq<Token>, i: nat, x: Expr, n: nat, limit: int, room: int)
    requires room > 0 && i < |toks| && Operand(p, toks, i, room - 1) == Tree(x, n)
    ensures n <= |toks| && SubExpr(p, toks, i, limit, room) == Operators(p, toks, x, n, limit, room - 1)
  {
    hide Operand, Operators;
  }

  // An operand is read by what its first token says.
  lemma ReadsParen(p: Priorities, toks: seq<Token>, i: nat, x: Expr, n: nat, room: int)
    requires x.EParen? && i < n <= |toks| && toks[i] == TLParen && toks[n - 1] == TRParen
    requires SubExpr(p, toks, i + 1, 0, room) == Tree(x.e, n - 1)
    ensures Operand(p, toks, i, room) == Tree(x, n)
  {
    hide SubExpr;
  }

  lemma ReadsUnary(p: Priorities, toks: seq<Token>, i: nat, x: Expr, n: nat, room: int)
    requires x.EUnary? && i < n <= |toks| && toks[i] == UnToken(x.uop)
    requires SubExpr(p, toks, i + 1, p.unary, room) == Tree(x.e, n)
    ensures Operand(p, toks, i, room) == Tree(x, n)
  {
    hide SubExpr;
  }

  lemma ReadsLeaf(p: Priorities, toks: seq<Token>, i: nat, x: Expr, room: int)
    requires !x.EParen? && !x.EUnary? && !x.EBinary? && i < |toks| && toks[i] == Yield(x)[0]
    ensures Operand(p, toks, i, room) == Tree(x, i + 1)
  {
    hide SubExpr;
  }

  // What is built is built of parts.
  lemma BuiltBinary(p: Priorities, toks: seq<Token>, i: nat, limit: int, x: Expr, n: nat) returns (mid: nat)
    requires x.EBinary? && Built(p, toks, i, limit, x, n)
    ensures Built(p, toks, i, limit, x.l, mid) && Continues(p, toks, mid, limit) == Some(x.bop)
    ensures Built(p, toks, mid + 1, p.right(x.bop), x.r, n) && Continues(p, toks, n, p.right(x.bop)).None?
  {
    var y, z, t := Yield(x.l), Yield(x.r), BinToken(x.bop);
    assert toks[i..n] == y + [t] + z;
    YieldNonEmpty(x.l);
    YieldNonEmpty(x.r);
    hide Yield, Built;
    Three(toks, i, n, y, t, z);
    mid := i + |y|;
    BuiltLeft(p, toks, i, limit, x, mid, n);
  }

  lemma BuiltLeft(p: Priorities, toks: seq<Token>, i: nat, limit: int, x: Expr, mid: nat, n: nat)
    requires x.EBinary? && Built(p, toks, i, limit, x, n) && i < mid < mid + 1 < n && toks[mid] == BinToken(x.bop)
    requires toks[i..mid] == Yield(x.l) && toks[mid + 1..n] == Yield(x.r)
    ensures Built(p, toks, i, limit, x.l, mid) && Continues(p, toks, mid, limit) == Some(x.bop)
    ensures Built(p, toks, mid + 1, p.right(x.bop), x.r, n) && Continues(p, toks, n, p.right(x.bop)).None?
  {
    hide Yield;
  }

  lemma BuiltParen(p: Priorities, toks: seq<Token>, i: nat, limit: int, x: Expr, n: nat)
    requires x.EParen? && Built(p, toks, i, limit, x, n)
    ensures i < n <= |toks| && toks[i] == TLParen && n > 0 && toks[n - 1] == TRParen
    ensures Built(p, toks, i + 1, 0, x.e, n - 1) && Continues(p, toks, n - 1, 0).None?
  {
    var y := Yield(x.e);
    assert toks[i..n] == [TLParen] + y + [TRParen];
    assert toks[i] == toks[i..n][0];
    YieldNonEmpty(x.e);
    hide Yield;
    Inner(toks, i, n, y);
  }

  lemma BuiltUnary(p: Priorities, toks: seq<Token>, i: nat, limit: int, x: Expr, n: nat)
    requires x.EUnary? && Built(p, toks, i, limit, x, n)
    ensures i < n <= |toks| && toks[i] == UnToken(x.uop)
    ensures Built(p, toks, i + 1, p.unary, x.e, n) && Continues(p, toks, n, p.unary).None?
  {
    var y := Yield(x.e);
    assert toks[i..n] == [UnToken(x.uop)] + y;
    assert toks[i] == toks[i..n][0];
    assert toks[i + 1..n] == toks[i..n][1..] == y;
    YieldNonEmpty(x.e);
    hide Yield;
  }

  lemma BuiltLeaf(p: Priorities, toks: seq<Token>, i: nat, limit: int, x: Expr, n: nat)
    requires !x.EParen? && !x.EUnary? && !x.EBinary? && Built(p, toks, i, limit, x, n)
    ensures i < |toks| && n == i + 1 && toks[i] == Yield(x)[0]
  {
    assert toks[i] == toks[i..n][0];
  }

  lemma OperatorsStop(p: Priorities, toks: seq<Token>, x: Expr, i: nat, limit: int, room: int)
    requires i <= |toks| && Continues(p, toks, i, limit).None?
    ensures Operators(p, toks, x, i, limit, room) == Tree(x, i)
  {
    hide Continues, SubExpr;
  }

  lemma OperatorsGo(p: Priorities, toks: seq<Token>, x: Expr, i: nat, op: BinOpr, y: Expr, n: nat, limit: int,
      room: int)
    requires i <= |toks| && Continues(p, toks, i, limit) == Some(op)
    requires SubExpr(p, toks, i + 1, p.right(op), room) == Tree(y, n)
    ensures n <= |toks|
    ensures Operators(p, toks, x, i, limit, room) == Operators(p, toks, EBinary(op, x, y), n, limit, room)
  {
    hide Continues, SubExpr;
  }

  // subexpr and printing are inverse: the trees it builds at `limit' are exactly those
  // that respect the priorities, start above `limit' and nest no deeper than there is
  // room for, and from a tree's own tokens it builds that tree.
  lemma ParseIsInverse(p: Priorities, toks: seq<Token>, i: nat, x: Expr, limit: int, room: int)
    requires i + |Yield(x)| <= |toks| && toks[i..i + |Yield(x)|] == Yield(x)
    requires Continues(p, toks, i + |Yield(x)|, limit).None?
    ensures SubExpr(p, toks, i, limit, room) == Tree(x, i + |Yield(x)|) <==>
            Respects(p, x) && LeftAbove(p, x, limit) && StopsAfter(p, toks, x, i + |Yield(x)|) && Nest(x) < room
  {
    hide SubExpr, Operators, Respects, LeftAbove, StopsAfter, Nest, Continues, Yield;
    var n := i + |Yield(x)|;
    YieldNonEmpty(x);
    if Respects(p, x) && LeftAbove(p, x, limit) && StopsAfter(p, toks, x, n) && Nest(x) < room {
      SubExprReads(p, toks, i, x, n, limit, room);
      OperatorsStop(p, toks, x, n, limit, room - 1);
    }
    SubExprSound(p, toks, i, limit, room);
  }

  // Two trees that respect the priorities and read the same are the same tree.
  lemma NoAmbiguity(p: Priorities, x: Expr, y: Expr, limit: int)
    requires Respects(p, x) && Respects(p, y) && LeftAbove(p, x, limit) && LeftAbove(p, y, limit)
    requires Yield(x) == Yield(y)
    ensures x == y
  {
    hide Yield, Respects, LeftAbove, SubExpr, StopsAfter, Continues;
    var toks := Yield(x);
    NothingFollows(p, toks, x, limit);
    NothingFollows(p, toks, y, limit);
    assert toks[0..0 + |Yield(x)|] == toks && toks[0..0 + |Yield(y)|] == toks;
    var room := Nest(x) + Nest(y) + 1;
    ParseIsInverse(p, toks, 0, x, limit, room);
    ParseIsInverse(p, toks, 0, y, limit, room);
  }

  lemma NothingFollows(p: Priorities, toks: seq<Token>, x: Expr, limit: int)
    ensures Continues(p, toks, |toks|, limit).None? && StopsAfter(p, toks, x, |toks|)
  {
  }
}
