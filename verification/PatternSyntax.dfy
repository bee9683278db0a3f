// How patterns are written: every list of items, written out, is read back as it was.

module PatternSyntax {
  import opened PatternItems
  import opened PatternMeaning

  // ----- writing -----

  // Stands for itself between brackets.
  predicate Bare(c: char) {
    c !in {'%', ']', '-', '^', '\0'}
  }

  predicate PlainElem(x: Elem) {
    match x
    case Letter(cl) => cl != '\0'
    case Range(lo, hi) => Bare(lo) && Bare(hi)
    case Just(c) => Bare(c)
  }

  function SpellElem(x: Elem): string {
    match x
    case Letter(cl) => ['%', cl]
    case Range(lo, hi) => [lo, '-', hi]
    case Just(c) => [c]
  }

  function SpellElems(xs: seq<Elem>): string {
    if xs == [] then "" else SpellElem(xs[0]) + SpellElems(xs[1..])
  }

  predicate PlainSet(s: Set) {
    match s
    case Any => true
    case OneOf(cl) => cl != '\0' && !Digit(cl) && cl != 'b' && cl != 'f'
    case Literal(c) => c !in {'^', '$', '*', '+', '?', '.', '(', ')', '[', '%', '-', '\0'}
    case Bracket(_, xs) => xs != [] && forall x :: x in xs ==> PlainElem(x)
  }

  function SpellSet(s: Set): string {
    match s
    case Any => "."
    case OneOf(cl) => ['%', cl]
    case Literal(c) => [c]
    case Bracket(negated, xs) => (if negated then "[^" else "[") + SpellElems(xs) + "]"
  }

  predicate PlainItem(x: Item) {
    match x
    case One(s) => PlainSet(s)
    case Opt(s) => PlainSet(s)
    case Star(s) => PlainSet(s)
    case Plus(s) => PlainSet(s)
    case Minus(s) => PlainSet(s)
    case Balance(b, e) => b != '\0' && e != '\0'
    case Frontier(s) => s.Bracket? && PlainSet(s)
    case Back(l) => Digit(l)
    case Broken(_) => false
    case _ => true
  }

  function SpellItem(x: Item): string {
    match x
    case One(s) => SpellSet(s)
    case Opt(s) => SpellSet(s) + "?"
    case Star(s) => SpellSet(s) + "*"
    case Plus(s) => SpellSet(s) + "+"
    case Minus(s) => SpellSet(s) + "-"
    case OpenCap(position) => if position then "()" else "("
    case CloseCap => ")"
    case Balance(b, e) => ['%', 'b', b, e]
    case Frontier(s) => "%f" + SpellSet(s)
    case Back(l) => ['%', l]
    case AtEnd => "$"
    case Broken(_) => ""
  }

  function Spell(items: seq<Item>): string {
    if items == [] then "" else SpellItem(items[0]) + Spell(items[1..])
  }

  // `$' is an item at the end only, and `()' is no empty group.
  predicate Spellable(items: seq<Item>) {
    items == [] ||
    (PlainItem(items[0]) && (items[0].AtEnd? ==> |items| == 1) &&
     (items[0] == OpenCap(false) && |items| > 1 ==> items[1] != CloseCap) && Spellable(items[1..]))
  }

  // ----- reading one item -----

  // The item at i, and where the next one is.
  function ItemAt(p: string, i: nat): (Item, nat)
    requires i < |p| && p[i] != '\0'
  {
    var c, d := p[i], Ch(p, i + 1);
    if c == '(' then (if d == ')' then (OpenCap(true), i + 2) else (OpenCap(false), i + 1))
    else if c == ')' then (CloseCap, i + 1)
    else if c == ESC && d == 'b' then
      if Ch(p, i + 2) == '\0' || Ch(p, i + 3) == '\0' then (Broken(Unbalanced), i)
      else (Balance(Ch(p, i + 2), Ch(p, i + 3)), i + 4)
    else if c == ESC && d == 'f' then
      if Ch(p, i + 2) != '[' then (Broken(MissingAfterF), i)
      else
        match ClassEnd(p, i + 2)
        case Malformed(e) => (Broken(e), i)
        case At(ep) => (Frontier(BracketAt(p, i + 2, ep - 1)), ep)
    else if c == ESC && Digit(d) then (Back(d), i + 2)
    else if c == '$' && d == '\0' then (AtEnd, i)
    else
      match ClassEnd(p, i)
      case Malformed(e) => (Broken(e), i)
      case At(ep) =>
        var s, x := SetAt(p, i, ep), Ch(p, ep);
        if x == '?' then (Opt(s), ep + 1)
        else if x == '*' then (Star(s), ep + 1)
        else if x == '+' then (Plus(s), ep + 1)
        else if x == '-' then (Minus(s), ep + 1)
        else (One(s), ep)
  }

  lemma ItemsNext(ct: Ctype, p: string, i: nat)
    requires i < |p| && p[i] != '\0'
    ensures var (x, next) := ItemAt(p, i);
            Items(ct, p, i) == if x.Broken? || x.AtEnd? then [x] else [x] + Items(ct, p, next)
  {
    hide ClassEnd, SetAt, BracketAt;
  }

  lemma ItemsEnd(ct: Ctype, p: string, i: nat)
    ensures i >= |p| ==> Items(ct, p, i) == []
  {
  }

  // The text t stands in p at i.
  predicate Stands(p: string, i: nat, t: string) {
    i + |t| <= |p| && p[i..i + |t|] == t
  }

  lemma StandsAt(p: string, i: nat, t: string, k: nat)
    requires Stands(p, i, t) && k < |t|
    ensures Ch(p, i + k) == t[k]
  {
    assert p[i..i + |t|][k] == p[i + k];
  }

  lemma StandsParts(p: string, i: nat, a: string, b: string)
    requires Stands(p, i, a + b)
    ensures Stands(p, i, a) && Stands(p, i + |a|, b)
  {
    var all := p[i..i + |a + b|];
    assert all[..|a|] == p[i..i + |a|] && all[|a|..] == p[i + |a|..i + |a + b|];
    assert (a + b)[..|a|] == a && (a + b)[|a|..] == b;
  }

  // ----- brackets -----

  lemma OneElemRead(p: string, i: nat, x: Elem, ec: nat)
    requires Stands(p, i, SpellElem(x)) && PlainElem(x) && i + |SpellElem(x)| <= ec
    requires i + |SpellElem(x)| < ec ==> Ch(p, i + |SpellElem(x)|) != '-'
    ensures Elems(p, i, ec) == [x] + Elems(p, i + |SpellElem(x)|, ec)
  {
    StandsAt(p, i, SpellElem(x), 0);
    if x.Letter? {
      StandsAt(p, i, SpellElem(x), 1);
    } else if x.Range? {
      StandsAt(p, i, SpellElem(x), 1);
      StandsAt(p, i, SpellElem(x), 2);
    }
  }

  lemma {:induction false} ElemsRead(p: string, i: nat, xs: seq<Elem>)
    requires Stands(p, i, SpellElems(xs)) && forall x :: x in xs ==> PlainElem(x)
    ensures Elems(p, i, i + |SpellElems(xs)|) == xs
    decreases xs
  {
    hide Elems, SpellElem, PlainElem, Stands, Ch;
    if xs == [] {
      assert Elems(p, i, i) == [] by { NoElems(p, i); }
    } else {
      var x, t := xs[0], SpellElem(xs[0]);
      var rest := SpellElems(xs[1..]);
      assert x in xs;
      StandsParts(p, i, t, rest);
      FirstOfElems(p, i + |t|, xs[1..]);
      ElemsRead(p, i + |t|, xs[1..]);
      OneElemRead(p, i, x, i + |SpellElems(xs)|);
      assert [x] + xs[1..] == xs;
    }
  }

  lemma NoElems(p: string, i: nat)
    ensures Elems(p, i, i) == []
  {
  }

  lemma FirstOfElems(p: string, i: nat, xs: seq<Elem>)
    requires Stands(p, i, SpellElems(xs)) && forall x :: x in xs ==> PlainElem(x)
    ensures xs != [] ==> SpellElems(xs) != "" && Ch(p, i) != '-' && Ch(p, i) != ']' && Ch(p, i) != '^'
  {
    if xs != [] {
      assert xs[0] in xs;
      StandsAt(p, i, SpellElems(xs), 0);
    }
  }

  lemma {:induction false} BracketRead(p: string, i: nat, xs: seq<Elem>)
    requires Stands(p, i, SpellElems(xs) + "]") && xs != [] && forall x :: x in xs ==> PlainElem(x)
    ensures BracketEnd(p, i) == At(i + |SpellElems(xs)| + 1)
    decreases xs
  {
    hide BracketEnd, SpellElem, PlainElem, Stands, Ch;
    var x, t := xs[0], SpellElem(xs[0]);
    var rest := SpellElems(xs[1..]);
    assert x in xs;
    assert SpellElems(xs) + "]" == t + (rest + "]");
    StandsParts(p, i, t, rest + "]");
    StandsParts(p, i + |t|, rest, "]");
    StandsAt(p, i + |t| + |rest|, "]", 0);
    FirstOfElems(p, i + |t|, xs[1..]);
    ElemEnds(p, i, x);
    if xs[1..] != [] { BracketRead(p, i + |t|, xs[1..]); }
  }

  // The search for the end of a bracket passes over an element.
  lemma ElemEnds(p: string, i: nat, x: Elem)
    requires Stands(p, i, SpellElem(x)) && PlainElem(x)
    ensures var k := i + |SpellElem(x)|; BracketEnd(p, i) == if Ch(p, k) == ']' then At(k + 1) else BracketEnd(p, k)
  {
    StandsAt(p, i, SpellElem(x), 0);
    if x.Letter? {
      StandsAt(p, i, SpellElem(x), 1);
    } else if x.Range? {
      StandsAt(p, i, SpellElem(x), 1);
      StandsAt(p, i, SpellElem(x), 2);
      assert BracketEnd(p, i) == BracketEnd(p, i + 1);
      assert BracketEnd(p, i + 1) == BracketEnd(p, i + 2);
    }
  }

  lemma BracketSetRead(p: string, i: nat, s: Set)
    requires s.Bracket? && PlainSet(s) && Stands(p, i, SpellSet(s))
    ensures ClassEnd(p, i) == At(i + |SpellSet(s)|) && BracketAt(p, i, i + |SpellSet(s)| - 1) == s && Ch(p, i) == '['
  {
    hide BracketEnd, Elems, Stands, SpellElems, PlainElem;
    var start := if s.negated then "[^" else "[";
    var body := SpellElems(s.elems) + "]";
    assert SpellSet(s) == start + body;
    StandsParts(p, i, start, body);
    StandsAt(p, i, start, 0);
    if s.negated { StandsAt(p, i, start, 1); }
    BracketRead(p, i + |start|, s.elems);
    StandsParts(p, i + |start|, SpellElems(s.elems), "]");
    FirstOfElems(p, i + |start|, s.elems);
    ElemsRead(p, i + |start|, s.elems);
  }

  lemma SetRead(p: string, i: nat, s: Set)
    requires PlainSet(s) && Stands(p, i, SpellSet(s))
    ensures var ep := i + |SpellSet(s)|; ClassEnd(p, i) == At(ep) && SetAt(p, i, ep) == s && ep > i
  {
    hide BracketEnd, BracketAt;
    StandsAt(p, i, SpellSet(s), 0);
    if s.OneOf? { StandsAt(p, i, SpellSet(s), 1); }
    if s.Bracket? { BracketSetRead(p, i, s); }
  }

  // ----- items -----

  // The first character of an item is no suffix.
  lemma FirstOfItem(x: Item)
    requires PlainItem(x)
    ensures SpellItem(x) != "" && SpellItem(x)[0] !in {'?', '*', '+', '-', '\0'}
    ensures SpellItem(x)[0] == ')' <==> x == CloseCap
  {
    hide SpellElems;
  }

  // What stands after an item: the end, or an item that it cannot be taken with.
  predicate Follows(x: Item, p: string, i: nat) {
    Ch(p, i) !in {'?', '*', '+', '-'} && (x == OpenCap(false) ==> Ch(p, i) != ')') && (x.AtEnd? ==> Ch(p, i) == '\0')
  }

  lemma ItemRead(p: string, i: nat, x: Item)
    requires PlainItem(x) && Stands(p, i, SpellItem(x)) && Follows(x, p, i + |SpellItem(x)|)
    ensures i < |p| && p[i] != '\0' && ItemAt(p, i) == (x, if x.AtEnd? then i else i + |SpellItem(x)|)
  {
    hide ClassEnd, SetAt, BracketAt, SpellElems, SpellSet, PlainSet;
    FirstOfItem(x);
    StandsAt(p, i, SpellItem(x), 0);
    match x
    case One(s) => SuffixRead(p, i, s, "");
    case Opt(s) => SuffixRead(p, i, s, "?");
    case Star(s) => SuffixRead(p, i, s, "*");
    case Plus(s) => SuffixRead(p, i, s, "+");
    case Minus(s) => SuffixRead(p, i, s, "-");
    case OpenCap(position) => if position { StandsAt(p, i, SpellItem(x), 1); }
    case CloseCap =>
    case Balance(_, _) =>
      StandsAt(p, i, SpellItem(x), 1);
      StandsAt(p, i, SpellItem(x), 2);
      StandsAt(p, i, SpellItem(x), 3);
    case Frontier(s) =>
      StandsAt(p, i, SpellItem(x), 1);
      StandsParts(p, i, "%f", SpellSet(s));
      BracketSetRead(p, i + 2, s);
    case Back(_) => StandsAt(p, i, SpellItem(x), 1);
    case AtEnd =>
  }

  // A set, and the suffix after it.
  lemma SuffixRead(p: string, i: nat, s: Set, suffix: string)
    requires PlainSet(s) && Stands(p, i, SpellSet(s) + suffix) && i < |p| && p[i] != '\0'
    requires suffix in {"", "?", "*", "+", "-"} && (suffix == "" ==> Ch(p, i + |SpellSet(s)|) !in {'?', '*', '+', '-'})
    ensures var ep := i + |SpellSet(s)|;
            ItemAt(p, i) == (if suffix == "?" then (Opt(s), ep + 1) else if suffix == "*" then (Star(s), ep + 1)
                             else if suffix == "+" then (Plus(s), ep + 1) else if suffix == "-" then (Minus(s), ep + 1)
                             else (One(s), ep))
  {
    hide ClassEnd, SetAt, BracketAt;
    StandsParts(p, i, SpellSet(s), suffix);
    if suffix != "" { StandsAt(p, i + |SpellSet(s)|, suffix, 0); }
    SetRead(p, i, s);
    SetStarts(p, i, s);
  }

  // The text of a set is not that of another item.
  lemma SetStarts(p: string, i: nat, s: Set)
    requires PlainSet(s) && Stands(p, i, SpellSet(s))
    ensures Ch(p, i) != '(' && Ch(p, i) != ')' && Ch(p, i) != '$'
    ensures Ch(p, i) == ESC ==> Ch(p, i + 1) != 'b' && Ch(p, i + 1) != 'f' && !Digit(Ch(p, i + 1))
  {
    hide SpellElems;
    StandsAt(p, i, SpellSet(s), 0);
    if s.OneOf? { StandsAt(p, i, SpellSet(s), 1); }
  }

  // Every list of items, written out, is read back.
  lemma {:induction false} ItemsRead(ct: Ctype, p: string, i: nat, items: seq<Item>)
    requires Spellable(items) && Stands(p, i, Spell(items)) && i + |Spell(items)| == |p|
    ensures Items(ct, p, i) == items
    decreases |items|
  {
    hide ItemAt, Items, SpellItem;
    if items == [] {
      ItemsEnd(ct, p, i);
    } else {
      var x, t := items[0], SpellItem(items[0]);
      StandsParts(p, i, t, Spell(items[1..]));
      if |items| > 1 {
        var y := items[1];
        assert items[1..][0] == y;
        FirstOfItem(y);
        StandsAt(p, i + |t|, Spell(items[1..]), 0);
      }
      ItemRead(p, i, x);
      ItemsNext(ct, p, i);
      ItemsRead(ct, p, i + |t|, items[1..]);
      assert [x] + items[1..] == items;
    }
  }

  lemma SpelledBack(ct: Ctype, items: seq<Item>)
    requires Spellable(items)
    ensures Items(ct, Spell(items), 0) == items
  {
    hide Spellable, Items, Spell;
    assert Spell(items)[0..0 + |Spell(items)|] == Spell(items);
    ItemsRead(ct, Spell(items), 0, items);
  }

  // ----- what items match -----

  // A letter of a class stands for its characters, and in upper case for all others.
  lemma ClassesMean(ct: Ctype, c: char, l: char)
    requires l in "acdlpsuwxz"
    ensures var res := match l
              case 'a' => ct.alpha(c) case 'c' => ct.cntrl(c) case 'd' => '0' <= c <= '9' case 'l' => ct.lower(c)
              case 'p' => ct.punct(c) case 's' => ct.space(c) case 'u' => ct.upper(c) case 'w' => ct.alnum(c)
              case 'x' => ct.xdigit(c) case 'z' => c == '\0';
            forall cl :: ct.tolower(cl) == l ==> MatchClass(ct, c, cl) == if ct.lower(cl) then res else !res
  {
  }

  lemma OthersMean(ct: Ctype, c: char, cl: char)
    requires ct.tolower(cl) !in "acdlpsuwxz"
    ensures MatchClass(ct, c, cl) <==> c == cl
  {
  }

  predicate Covers(ct: Ctype, c: char, x: Elem) {
    if x.Letter? then MatchClass(ct, c, x.cl) else if x.Range? then x.lo <= c && c <= x.hi else c == x.c
  }

  // `[xyz]' and `[^xyz]', with ranges and classes among the elements.
  lemma BracketMeans(ct: Ctype, c: char, xs: seq<Elem>)
    ensures InSet(ct, c, Bracket(false, xs)) <==> exists k :: 0 <= k < |xs| && Covers(ct, c, xs[k])
    ensures InSet(ct, c, Bracket(true, xs)) <==> !exists k :: 0 <= k < |xs| && Covers(ct, c, xs[k])
  {
    hide MatchClass;
    if exists x :: x in xs && InElem(ct, c, x) {
      var x :| x in xs && InElem(ct, c, x);
      var k :| 0 <= k < |xs| && xs[k] == x;
      assert Covers(ct, c, xs[k]);
    }
    if exists k :: 0 <= k < |xs| && Covers(ct, c, xs[k]) {
      var k :| 0 <= k < |xs| && Covers(ct, c, xs[k]);
      var x := xs[k];
      assert x in xs && InElem(ct, c, x);
    }
  }

  // `%f[set]' stands where the set begins; both ends of the text count as a zero.
  lemma FrontierMeans(ct: Ctype, src: string, s: nat, set': Set, caps: seq<Cap>, t: nat, caps': seq<Cap>)
    requires s <= |src|
    ensures Passes(ct, src, Frontier(set'), s, caps, t, caps') <==>
            t == s && caps' == caps && !InSet(ct, if s == 0 then '\0' else src[s - 1], set') &&
            InSet(ct, if s < |src| then src[s] else '\0', set')
  {
  }

  // `%1' to `%9' stand for the text of a capture, which must be closed and no place.
  lemma BackMeans(ct: Ctype, src: string, s: nat, l: char, caps: seq<Cap>, t: nat, caps': seq<Cap>)
    requires '1' <= l <= '9' && s <= t <= |src|
    ensures Passes(ct, src, Back(l), s, caps, t, caps') <==>
            var k := l as int - '1' as int;
            caps' == caps && k < |caps| && caps[k].len >= 0 && caps[k].init + caps[k].len <= |src| &&
            src[s..t] == src[caps[k].init..caps[k].init + caps[k].len]
  {
  }
}
