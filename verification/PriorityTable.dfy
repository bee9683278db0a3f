// The table of priorities as shipped, and the one its comments describe.

module PriorityTable {
  import opened LuaValue
  import opened Precedence
  import opened Options

  const UNARY_PRIORITY: int := 8

  // Position of an operator in the enumeration the table is indexed by.
  function Ord(op: BinOpr): int {
    match op
    case ArithOpr(a) =>
      (match a
       case ADD => 0 case SUB => 1 case MUL => 2 case DIV => 3 case MOD => 4 case POW => 5
       case BOR => 6 case BAND => 7 case BXOR => 8 case BLSHFT => 9 case BRSHFT => 10)
    case ConcatOpr => 11
    case CompOpr(r) =>
      (match r case NE => 12 case EQUAL => 13 case LESS => 14 case LESSEQ => 15 case GREATER => 16 case GREATEREQ => 17)
    case AndOpr => 18
    case OrOpr => 19
  }

  const LEFT: seq<int> := [6, 6, 7, 7, 7, 6, 6, 6, 7, 7, 10, 5, 3, 3, 3, 3, 3, 3, 2, 1]
  const RIGHT: seq<int> := [6, 6, 7, 7, 7, 6, 6, 6, 7, 7, 9, 4, 3, 3, 3, 3, 3, 3, 2, 1]

  const SHIPPED: Priorities := Priorities(op => LEFT[Ord(op)], op => RIGHT[Ord(op)], UNARY_PRIORITY)

  const POWER := ArithOpr(POW)
  const XOR := ArithOpr(BXOR)
  const RSHIFT := ArithOpr(BRSHFT)

  // The row that a comment in the table gives to an operator: the bitwise operators come
  // before `^' there, and after it in the enumeration.
  function Row(op: BinOpr): int {
    match op
    case ArithOpr(a) => if op == POWER then 10 else if Ord(op) > 5 then Ord(op) - 1 else Ord(op)
    case _ => Ord(op)
  }

  const INTENDED: Priorities := Priorities(op => LEFT[Row(op)], op => RIGHT[Row(op)], UNARY_PRIORITY)

  // Three operators have another row than the one meant for them.
  lemma ThreeMisplaced(op: BinOpr)
    ensures SHIPPED.left(op) == INTENDED.left(op) && SHIPPED.right(op) == INTENDED.right(op) <==>
            op != POWER && op != XOR && op != RSHIFT
  {
  }

  lemma Positive(op: BinOpr)
    ensures SHIPPED.left(op) > 0 && SHIPPED.right(op) > 0 && INTENDED.left(op) > 0 && INTENDED.right(op) > 0
  {
  }

  lemma {:induction false} AboveNothing(x: Expr)
    ensures LeftAbove(SHIPPED, x, 0)
    decreases x
  {
    if x.EBinary? {
      Positive(x.bop);
      AboveNothing(x.l);
    }
  }

  // The text of a tree as meant, nested no deeper than there is room for, is read as that
  // tree exactly if the tree respects the table as shipped.
  lemma ReadAsMeant(x: Expr, room: int)
    requires Respects(INTENDED, x) && Nest(x) < room
    ensures SubExpr(SHIPPED, Yield(x), 0, 0, room) == Tree(x, |Yield(x)|) <==> Respects(SHIPPED, x)
  {
    hide SHIPPED, INTENDED, Yield, Respects, SubExpr, StopsAfter, Nest, Continues, LeftAbove;
    var toks := Yield(x);
    AboveNothing(x);
    NothingFollows(SHIPPED, toks, x, 0);
    assert toks[0..0 + |toks|] == toks;
    ParseIsInverse(SHIPPED, toks, 0, x, 0, room);
  }

  // So every text without the three operators is read as meant,
  predicate Without(x: Expr) {
    match x
    case EParen(y) => Without(y)
    case EUnary(_, y) => Without(y)
    case EBinary(op, y, z) => Without(y) && Without(z) && op != POWER && op != XOR && op != RSHIFT
    case _ => true
  }

  lemma {:induction false} SameEdges(x: Expr, n: int)
    requires Without(x)
    ensures LeftAbove(SHIPPED, x, n) == LeftAbove(INTENDED, x, n)
    ensures RightYields(SHIPPED, x, n) == RightYields(INTENDED, x, n)
    decreases x
  {
    if x.EBinary? {
      ThreeMisplaced(x.bop);
      SameEdges(x.l, n);
      SameEdges(x.r, n);
    } else if x.EUnary? {
      SameEdges(x.e, n);
    }
  }

  lemma {:induction false} SameWithout(x: Expr)
    requires Without(x)
    ensures Respects(SHIPPED, x) == Respects(INTENDED, x)
    decreases x
  {
    match x
    case EParen(y) =>
      SameWithout(y);
      SameEdges(y, 0);
    case EUnary(_, y) =>
      SameWithout(y);
      SameEdges(y, UNARY_PRIORITY);
    case EBinary(op, y, z) =>
      SameWithout(y);
      SameWithout(z);
      ThreeMisplaced(op);
      SameEdges(y, SHIPPED.left(op));
      SameEdges(z, SHIPPED.right(op));
    case _ =>
  }

  // Operands that are read the same by every table.
  predicate Simple(x: Expr) {
    !x.EBinary? && !x.EUnary? && !x.EParen?
  }

  // Which way a table groups `x op1 y op2 z'.
  predicate GroupsLeft(p: Priorities, op1: BinOpr, op2: BinOpr, x: Expr, y: Expr, z: Expr) {
    Respects(p, EBinary(op2, EBinary(op1, x, y), z)) && !Respects(p, EBinary(op1, x, EBinary(op2, y, z)))
  }

  predicate GroupsRight(p: Priorities, op1: BinOpr, op2: BinOpr, x: Expr, y: Expr, z: Expr) {
    Respects(p, EBinary(op1, x, EBinary(op2, y, z))) && !Respects(p, EBinary(op2, EBinary(op1, x, y), z))
  }

  lemma Grouped(p: Priorities, op1: BinOpr, op2: BinOpr, x: Expr, y: Expr, z: Expr)
    requires Simple(x) && Simple(y) && Simple(z)
    ensures GroupsLeft(p, op1, op2, x, y, z) <==> p.left(op2) <= p.right(op1)
    ensures GroupsRight(p, op1, op2, x, y, z) <==> p.left(op2) > p.right(op1)
  {
    hide Respects, LeftAbove, RightYields;
    Edges(p, op1, x, y);
    Edges(p, op2, y, z);
    NoEdges(p, x);
    NoEdges(p, z);
    BinaryRespects(p, op2, EBinary(op1, x, y), z);
    BinaryRespects(p, op1, x, EBinary(op2, y, z));
  }

  lemma NoEdges(p: Priorities, x: Expr)
    requires Simple(x)
    ensures Respects(p, x) && (forall n :: LeftAbove(p, x, n)) && forall n :: RightYields(p, x, n)
  {
  }

  lemma BinaryRespects(p: Priorities, op: BinOpr, x: Expr, y: Expr)
    ensures Respects(p, EBinary(op, x, y)) <==>
            Respects(p, x) && Respects(p, y) && RightYields(p, x, p.left(op)) && LeftAbove(p, y, p.right(op))
  {
  }

  lemma Edges(p: Priorities, op: BinOpr, x: Expr, y: Expr)
    requires Simple(x) && Simple(y)
    ensures var b := EBinary(op, x, y);
            && Respects(p, b) && (forall n :: LeftAbove(p, b, n) <==> p.left(op) > n)
            && forall n :: RightYields(p, b, n) <==> n <= p.right(op)
  {
    NoEdges(p, x);
    NoEdges(p, y);
  }

  // and with them other trees are read: `^' associates to the left, `>>' to the right,
  lemma PowerAssociatesLeft(x: Expr, y: Expr, z: Expr)
    requires Simple(x) && Simple(y) && Simple(z)
    ensures GroupsLeft(SHIPPED, POWER, POWER, x, y, z) && GroupsRight(INTENDED, POWER, POWER, x, y, z)
    ensures GroupsRight(SHIPPED, RSHIFT, RSHIFT, x, y, z) && GroupsLeft(INTENDED, RSHIFT, RSHIFT, x, y, z)
  {
    hide Respects, GroupsLeft, GroupsRight;
    Grouped(SHIPPED, POWER, POWER, x, y, z);
    Grouped(INTENDED, POWER, POWER, x, y, z);
    Grouped(SHIPPED, RSHIFT, RSHIFT, x, y, z);
    Grouped(INTENDED, RSHIFT, RSHIFT, x, y, z);
  }

  // `^' binds weaker than `*', and exclusive or tighter than `|',
  lemma PowerBindsWeaker(x: Expr, y: Expr, z: Expr)
    requires Simple(x) && Simple(y) && Simple(z)
    ensures GroupsRight(SHIPPED, POWER, ArithOpr(MUL), x, y, z) && GroupsLeft(INTENDED, POWER, ArithOpr(MUL), x, y, z)
    ensures GroupsRight(SHIPPED, ArithOpr(BOR), XOR, x, y, z) && GroupsLeft(INTENDED, ArithOpr(BOR), XOR, x, y, z)
  {
    hide Respects, GroupsLeft, GroupsRight;
    Grouped(SHIPPED, POWER, ArithOpr(MUL), x, y, z);
    Grouped(INTENDED, POWER, ArithOpr(MUL), x, y, z);
    Grouped(SHIPPED, ArithOpr(BOR), XOR, x, y, z);
    Grouped(INTENDED, ArithOpr(BOR), XOR, x, y, z);
  }

  // and `-x^y' is `(-x)^y'.
  lemma MinusBindsTighter(x: Expr, y: Expr)
    requires Simple(x) && Simple(y)
    ensures Respects(SHIPPED, EBinary(POWER, EUnary(MinusOpr, x), y))
    ensures Respects(INTENDED, EUnary(MinusOpr, EBinary(POWER, x, y)))
    ensures !Respects(SHIPPED, EUnary(MinusOpr, EBinary(POWER, x, y)))
    ensures !Respects(INTENDED, EBinary(POWER, EUnary(MinusOpr, x), y))
  {
    hide Respects;
    MinusGrouped(SHIPPED, x, y);
    MinusGrouped(INTENDED, x, y);
  }

  lemma MinusGrouped(p: Priorities, x: Expr, y: Expr)
    requires Simple(x) && Simple(y)
    ensures Respects(p, EBinary(POWER, EUnary(MinusOpr, x), y)) <==> p.left(POWER) <= p.unary
    ensures Respects(p, EUnary(MinusOpr, EBinary(POWER, x, y))) <==> p.left(POWER) > p.unary
  {
    Edges(p, POWER, x, y);
    var m := EUnary(MinusOpr, x);
    assert Respects(p, x) && Respects(p, y) && LeftAbove(p, x, p.unary) && LeftAbove(p, y, p.right(POWER));
    assert Respects(p, m) && (RightYields(p, m, p.left(POWER)) <==> p.left(POWER) <= p.unary);
  }

  // ----- what the table means -----

  // How tight the operators bind in Lua, with the bitwise ones beside sums and products.
  function Meant(op: BinOpr): (n: nat)
    ensures 1 <= n <= 8
  {
    if op == OrOpr then 1
    else if op == AndOpr then 2
    else if op.CompOpr? then 3
    else if op == ConcatOpr then 4
    else if op in {ArithOpr(ADD), ArithOpr(SUB), ArithOpr(BOR), ArithOpr(BAND), XOR} then 5
    else if op in {ArithOpr(MUL), ArithOpr(DIV), ArithOpr(MOD), ArithOpr(BLSHFT), RSHIFT} then 6
    else 8
  }

  const UNARY_RANK: nat := 7

  // As shipped, `^' binds like a sum, exclusive or like a product, and `>>' tightest.
  function Rank(op: BinOpr): (n: nat)
    ensures 1 <= n <= 8
  {
    if op == POWER then 5 else if op == XOR then 6 else if op == RSHIFT then 8 else Meant(op)
  }

  function Ranked(rank: BinOpr -> nat, right: BinOpr -> bool): Priorities {
    Priorities(op => 2 * rank(op) + if right(op) then 1 else 0, op => 2 * rank(op), 2 * UNARY_RANK)
  }

  // `..' and the operator on top group to the right.
  const RANKED: Priorities := Ranked(Rank, op => op == ConcatOpr || op == RSHIFT)
  const RANKED_MEANT: Priorities := Ranked(Meant, op => op == ConcatOpr || op == POWER)

  // Limits that the same operators bind tighter than.
  ghost predicate SameLimit(p: Priorities, q: Priorities, m: int, n: int) {
    forall op {:trigger p.left(op)} {:trigger q.left(op)} :: p.left(op) > m <==> q.left(op) > n
  }

  ghost predicate SameOrder(p: Priorities, q: Priorities) {
    SameLimit(p, q, 0, 0) && SameLimit(p, q, p.unary, q.unary) &&
    forall op {:trigger p.right(op)} {:trigger q.right(op)} :: SameLimit(p, q, p.right(op), q.right(op))
  }

  // The row of each rank.
  lemma RowOfRank(op: BinOpr)
    ensures SHIPPED.left(op) == [1, 2, 3, 5, 6, 7, 8, 10][Rank(op) - 1]
    ensures SHIPPED.right(op) == [1, 2, 3, 4, 6, 7, 8, 9][Rank(op) - 1]
    ensures (op == ConcatOpr || op == RSHIFT <==> Rank(op) in {4, 8}) && Rank(op) != UNARY_RANK
  {
  }

  lemma RowMeant(op: BinOpr)
    ensures INTENDED.left(op) == [1, 2, 3, 5, 6, 7, 8, 10][Meant(op) - 1]
    ensures INTENDED.right(op) == [1, 2, 3, 4, 6, 7, 8, 9][Meant(op) - 1]
    ensures (op == ConcatOpr || op == POWER <==> Meant(op) in {4, 8}) && Meant(op) != UNARY_RANK
  {
  }

  lemma TablesRanked()
    ensures SameOrder(SHIPPED, RANKED) && SameOrder(INTENDED, RANKED_MEANT)
  {
    RanksCompare();
    hide SHIPPED, INTENDED, RANKED, RANKED_MEANT;
    forall op ensures SameLimit(SHIPPED, RANKED, SHIPPED.right(op), RANKED.right(op)) {
      forall other ensures SHIPPED.left(other) > SHIPPED.right(op) <==> RANKED.left(other) > RANKED.right(op) {
        RanksCompareTwo(other, op);
      }
    }
    forall op ensures SameLimit(INTENDED, RANKED_MEANT, INTENDED.right(op), RANKED_MEANT.right(op)) {
      forall other
        ensures INTENDED.left(other) > INTENDED.right(op) <==> RANKED_MEANT.left(other) > RANKED_MEANT.right(op)
      {
        RanksCompareTwo(other, op);
      }
    }
  }

  lemma RanksCompareTwo(a: BinOpr, b: BinOpr)
    ensures SHIPPED.left(a) > SHIPPED.right(b) <==> RANKED.left(a) > RANKED.right(b)
    ensures INTENDED.left(a) > INTENDED.right(b) <==> RANKED_MEANT.left(a) > RANKED_MEANT.right(b)
  {
    RowOfRank(a);
    RowOfRank(b);
    RowMeant(a);
    RowMeant(b);
    hide Rank, Meant, SHIPPED, INTENDED;
  }

  lemma RanksCompare()
    ensures SameLimit(SHIPPED, RANKED, 0, 0) && SameLimit(SHIPPED, RANKED, SHIPPED.unary, RANKED.unary)
    ensures SameLimit(INTENDED, RANKED_MEANT, 0, 0)
    ensures SameLimit(INTENDED, RANKED_MEANT, INTENDED.unary, RANKED_MEANT.unary)
  {
    forall op
      ensures SHIPPED.left(op) > 0 <==> RANKED.left(op) > 0
      ensures SHIPPED.left(op) > SHIPPED.unary <==> RANKED.left(op) > RANKED.unary
      ensures INTENDED.left(op) > 0 <==> RANKED_MEANT.left(op) > 0
      ensures INTENDED.left(op) > INTENDED.unary <==> RANKED_MEANT.left(op) > RANKED_MEANT.unary
    {
      RowOfRank(op);
      RowMeant(op);
    }
  }

  lemma {:induction false} SameLeft(p: Priorities, q: Priorities, x: Expr, m: int, n: int)
    requires SameLimit(p, q, m, n)
    ensures LeftAbove(p, x, m) == LeftAbove(q, x, n)
    decreases x
  {
    if x.EBinary? {
      assert p.left(x.bop) > m <==> q.left(x.bop) > n;
      SameLeft(p, q, x.l, m, n);
    }
  }

  lemma {:induction false} SameRight(p: Priorities, q: Priorities, x: Expr, op: BinOpr)
    requires SameOrder(p, q)
    ensures RightYields(p, x, p.left(op)) == RightYields(q, x, q.left(op))
    decreases x
  {
    if x.EBinary? {
      assert SameLimit(p, q, p.right(x.bop), q.right(x.bop));
      assert p.left(op) > p.right(x.bop) <==> q.left(op) > q.right(x.bop);
      SameRight(p, q, x.r, op);
    } else if x.EUnary? {
      assert p.left(op) > p.unary <==> q.left(op) > q.unary;
      SameRight(p, q, x.e, op);
    }
  }

  lemma {:induction false} SameTrees(p: Priorities, q: Priorities, x: Expr)
    requires SameOrder(p, q)
    ensures Respects(p, x) == Respects(q, x)
    decreases x
  {
    match x
    case EParen(y) =>
      SameTrees(p, q, y);
      SameLeft(p, q, y, 0, 0);
    case EUnary(_, y) =>
      SameTrees(p, q, y);
      SameLeft(p, q, y, p.unary, q.unary);
    case EBinary(op, y, z) =>
      SameTrees(p, q, y);
      SameTrees(p, q, z);
      SameRight(p, q, y, op);
      assert SameLimit(p, q, p.right(op), q.right(op));
      SameLeft(p, q, z, p.right(op), q.right(op));
    case _ =>
  }

  // The parser with the table as shipped reads a text as a tree exactly if the tree
  // respects the ranks.
  lemma ReadByRank(x: Expr, room: int)
    requires Nest(x) < room
    ensures SubExpr(SHIPPED, Yield(x), 0, 0, room) == Tree(x, |Yield(x)|) <==> Respects(RANKED, x)
    ensures Respects(INTENDED, x) <==> Respects(RANKED_MEANT, x)
  {
    hide SHIPPED, INTENDED, RANKED, RANKED_MEANT, Yield, Respects, SubExpr, StopsAfter, Nest, Continues, LeftAbove,
      SameOrder;
    TablesRanked();
    SameTrees(SHIPPED, RANKED, x);
    SameTrees(INTENDED, RANKED_MEANT, x);
    var toks := Yield(x);
    AboveNothing(x);
    NothingFollows(SHIPPED, toks, x, 0);
    assert toks[0..0 + |toks|] == toks;
    ParseIsInverse(SHIPPED, toks, 0, x, 0, room);
  }

  function Spelt(op: BinOpr): Token {
    if op == ArithOpr(SUB) then TMinus else TBinary(op)
  }

  function Sign(op: UnOpr): Token {
    match op
    case MinusOpr => TMinus
    case NotOpr => TNot
    case LenOpr => TLen
    case BNotOpr => TBang
  }

  // `x op1 y op2 z' groups to the left if op1 ranks higher, or as high and not to the right.
  lemma PairGrouped(op1: BinOpr, op2: BinOpr, x: Expr, y: Expr, z: Expr, room: int)
    requires Simple(x) && Simple(y) && Simple(z) && room > 2
    ensures var toks := Yield(x) + [Spelt(op1)] + Yield(y) + [Spelt(op2)] + Yield(z);
            var left := Rank(op1) > Rank(op2) || (Rank(op1) == Rank(op2) && op1 != ConcatOpr && op1 != RSHIFT);
            SubExpr(SHIPPED, toks, 0, 0, room) ==
            Tree(if left then EBinary(op2, EBinary(op1, x, y), z) else EBinary(op1, x, EBinary(op2, y, z)), 5)
  {
    var toks := Yield(x) + [Spelt(op1)] + Yield(y) + [Spelt(op2)] + Yield(z);
    var l, r := EBinary(op2, EBinary(op1, x, y), z), EBinary(op1, x, EBinary(op2, y, z));
    hide Respects, Yield, SubExpr, Nest, RANKED, SHIPPED, Rank, Spelt, Simple;
    PairText(op1, op2, x, y, z);
    RanksDecide(op1, op2);
    GroupedMeans(RANKED, op1, op2, x, y, z);
    ReadByRank(l, room);
    ReadByRank(r, room);
  }

  lemma RanksDecide(op1: BinOpr, op2: BinOpr)
    ensures RANKED.left(op2) <= RANKED.right(op1) <==>
            Rank(op1) > Rank(op2) || (Rank(op1) == Rank(op2) && op1 != ConcatOpr && op1 != RSHIFT)
    ensures RANKED.left(op2) > RANKED.unary <==> op2 == RSHIFT
  {
    RowOfRank(op1);
    RowOfRank(op2);
  }

  lemma PairText(op1: BinOpr, op2: BinOpr, x: Expr, y: Expr, z: Expr)
    requires Simple(x) && Simple(y) && Simple(z)
    ensures var toks := Yield(x) + [Spelt(op1)] + Yield(y) + [Spelt(op2)] + Yield(z);
            var l, r := EBinary(op2, EBinary(op1, x, y), z), EBinary(op1, x, EBinary(op2, y, z));
            Yield(l) == toks && Yield(r) == toks && |toks| == 5 && Nest(l) <= 2 && Nest(r) <= 2
  {
    hide Simple, Yield, Nest, Spelt;
    OneToken(x);
    OneToken(y);
    OneToken(z);
    BinaryText(op1, x, y);
    BinaryText(op2, y, z);
    BinaryText(op2, EBinary(op1, x, y), z);
    BinaryText(op1, x, EBinary(op2, y, z));
  }

  lemma OneToken(x: Expr)
    requires Simple(x)
    ensures |Yield(x)| == 1 && Nest(x) == 0
  {
  }

  lemma BinaryText(op: BinOpr, x: Expr, y: Expr)
    ensures Yield(EBinary(op, x, y)) == Yield(x) + [Spelt(op)] + Yield(y)
    ensures Nest(EBinary(op, x, y)) == if Nest(x) <= Nest(y) then 1 + Nest(y) else Nest(x)
  {
  }

  lemma SignText(u: UnOpr, op: BinOpr, x: Expr, y: Expr)
    requires Simple(x) && Simple(y)
    ensures var toks := [Sign(u)] + Yield(x) + [Spelt(op)] + Yield(y);
            var outside, inside := EUnary(u, EBinary(op, x, y)), EBinary(op, EUnary(u, x), y);
            Yield(outside) == toks && Yield(inside) == toks && |toks| == 4 && Nest(outside) <= 2 && Nest(inside) <= 2
  {
    hide Simple, Yield, Nest, Spelt, Sign;
    OneToken(x);
    OneToken(y);
    BinaryText(op, x, y);
    BinaryText(op, EUnary(u, x), y);
    SignedText(u, x);
    SignedText(u, EBinary(op, x, y));
  }

  lemma SignedText(u: UnOpr, x: Expr)
    ensures Yield(EUnary(u, x)) == [Sign(u)] + Yield(x) && Nest(EUnary(u, x)) == 1 + Nest(x)
  {
  }

  lemma GroupedMeans(p: Priorities, op1: BinOpr, op2: BinOpr, x: Expr, y: Expr, z: Expr)
    requires Simple(x) && Simple(y) && Simple(z)
    ensures Respects(p, EBinary(op2, EBinary(op1, x, y), z)) <==> p.left(op2) <= p.right(op1)
    ensures Respects(p, EBinary(op1, x, EBinary(op2, y, z))) <==> p.left(op2) > p.right(op1)
  {
    Grouped(p, op1, op2, x, y, z);
    hide Respects;
  }

  // An operator on one operand binds tighter than every other but `>>'.
  lemma UnaryGrouped(u: UnOpr, op: BinOpr, x: Expr, y: Expr, room: int)
    requires Simple(x) && Simple(y) && room > 2
    ensures SubExpr(SHIPPED, [Sign(u)] + Yield(x) + [Spelt(op)] + Yield(y), 0, 0, room) ==
            Tree(if op == RSHIFT then EUnary(u, EBinary(op, x, y)) else EBinary(op, EUnary(u, x), y), 4)
  {
    var toks := [Sign(u)] + Yield(x) + [Spelt(op)] + Yield(y);
    var outside, inside := EUnary(u, EBinary(op, x, y)), EBinary(op, EUnary(u, x), y);
    hide Respects, Yield, SubExpr, Nest, RANKED, SHIPPED, Rank, Spelt, Sign, Simple;
    SignText(u, op, x, y);
    RanksDecide(op, op);
    SignGrouped(RANKED, u, op, x, y);
    ReadByRank(outside, room);
    ReadByRank(inside, room);
  }

  lemma SignGrouped(p: Priorities, u: UnOpr, op: BinOpr, x: Expr, y: Expr)
    requires Simple(x) && Simple(y)
    ensures Respects(p, EBinary(op, EUnary(u, x), y)) <==> p.left(op) <= p.unary
    ensures Respects(p, EUnary(u, EBinary(op, x, y))) <==> p.left(op) > p.unary
  {
    Edges(p, op, x, y);
    NoEdges(p, x);
    NoEdges(p, y);
    BinaryRespects(p, op, EUnary(u, x), y);
  }
}
