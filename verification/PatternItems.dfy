// Patterns: what the characters of a pattern say, item by item.

module PatternItems {
  const ESC: char := '%'

  datatype Error =
    | EndsWithEscape | MissingBracket | Unbalanced | MissingAfterF
    | TooManyCaptures | NoCaptureToClose | InvalidIndex | Unfinished | InvalidReplacement

  // The tests of <ctype.h> that the current locale may change.
  datatype Ctype = Ctype(
    alpha: char -> bool, cntrl: char -> bool, lower: char -> bool, punct: char -> bool,
    space: char -> bool, upper: char -> bool, alnum: char -> bool, xdigit: char -> bool, tolower: char -> char)

  // Character i of a string that ends with a zero.
  function Ch(p: string, i: nat): char {
    if i < |p| then p[i] else '\0'
  }

  predicate Digit(c: char) {
    '0' <= c <= '9'
  }

  // match_class
  function MatchClass(ct: Ctype, c: char, cl: char): bool {
    var l := ct.tolower(cl);
    if l !in "acdlpsuwxz" then cl == c
    else
      var res :=
        if l == 'a' then ct.alpha(c)
        else if l == 'c' then ct.cntrl(c)
        else if l == 'd' then Digit(c)
        else if l == 'l' then ct.lower(c)
        else if l == 'p' then ct.punct(c)
        else if l == 's' then ct.space(c)
        else if l == 'u' then ct.upper(c)
        else if l == 'w' then ct.alnum(c)
        else if l == 'x' then ct.xdigit(c)
        else c == '\0';
      res == ct.lower(cl)
  }

  // ----- sets of characters -----

  datatype Elem = Letter(cl: char) | Range(lo: char, hi: char) | Just(c: char)

  datatype Set = Any | OneOf(cl: char) | Literal(c: char) | Bracket(negated: bool, elems: seq<Elem>)

  predicate InElem(ct: Ctype, c: char, x: Elem) {
    match x
    case Letter(cl) => MatchClass(ct, c, cl)
    case Range(lo, hi) => lo <= c <= hi
    case Just(d) => d == c
  }

  predicate InSet(ct: Ctype, c: char, set': Set) {
    match set'
    case Any => true
    case OneOf(cl) => MatchClass(ct, c, cl)
    case Literal(d) => d == c
    case Bracket(negated, elems) => (exists x :: x in elems && InElem(ct, c, x)) != negated
  }

  // The elements written in p[i..ec].
  function Elems(p: string, i: nat, ec: nat): seq<Elem>
    decreases ec - i
  {
    if i >= ec then []
    else if Ch(p, i) == ESC then [Letter(Ch(p, i + 1))] + Elems(p, i + 2, ec)
    else if Ch(p, i + 1) == '-' && i + 2 < ec then [Range(Ch(p, i), Ch(p, i + 2))] + Elems(p, i + 3, ec)
    else [Just(Ch(p, i))] + Elems(p, i + 1, ec)
  }

  function BracketAt(p: string, i: nat, ec: nat): Set {
    if Ch(p, i + 1) == '^' then Bracket(true, Elems(p, i + 2, ec)) else Bracket(false, Elems(p, i + 1, ec))
  }

  function SetAt(p: string, i: nat, ep: nat): Set {
    if Ch(p, i) == '.' then Any
    else if Ch(p, i) == ESC then OneOf(Ch(p, i + 1))
    else if Ch(p, i) == '[' then BracketAt(p, i, if ep > 0 then ep - 1 else 0)
    else Literal(Ch(p, i))
  }

  datatype EndOf = At(ep: nat) | Malformed(err: Error)

  // The end of a bracket expression, after its first `]' that is not escaped and not first.
  function BracketEnd(p: string, j: nat): (r: EndOf)
    ensures r.At? ==> j < r.ep <= |p|
    decreases if j < |p| then |p| - j else 0
  {
    if Ch(p, j) == '\0' then Malformed(MissingBracket)
    else
      var k := if Ch(p, j) == ESC && Ch(p, j + 1) != '\0' then j + 2 else j + 1;
      if Ch(p, k) == ']' then At(k + 1) else BracketEnd(p, k)
  }

  function ClassEnd(p: string, i: nat): (r: EndOf)
    ensures r.At? && i < |p| ==> i < r.ep <= |p|
  {
    if Ch(p, i) == ESC then (if Ch(p, i + 1) == '\0' then Malformed(EndsWithEscape) else At(i + 2))
    else if Ch(p, i) == '[' then BracketEnd(p, if Ch(p, i + 1) == '^' then i + 2 else i + 1)
    else At(i + 1)
  }

  // ----- items -----

  datatype Item =
    | One(s: Set)                   // one character
    | Opt(s: Set)                   // `?'
    | Star(s: Set)                  // `*'
    | Plus(s: Set)                  // `+'
    | Minus(s: Set)                 // `-'
    | OpenCap(position: bool) | CloseCap
    | Balance(b: char, e: char) | Frontier(s: Set) | Back(l: char)
    | AtEnd                         // `$' at the end of the pattern
    | Broken(err: Error)            // found only when the match gets there

  function Items(ct: Ctype, p: string, i: nat): seq<Item>
    decreases if i < |p| then |p| - i else 0
  {
    var c, d := Ch(p, i), Ch(p, i + 1);
    if c == '\0' then []
    else if c == '(' then (if d == ')' then [OpenCap(true)] + Items(ct, p, i + 2)
                           else [OpenCap(false)] + Items(ct, p, i + 1))
    else if c == ')' then [CloseCap] + Items(ct, p, i + 1)
    else if c == ESC && d == 'b' then
      if Ch(p, i + 2) == '\0' || Ch(p, i + 3) == '\0' then [Broken(Unbalanced)]
      else [Balance(Ch(p, i + 2), Ch(p, i + 3))] + Items(ct, p, i + 4)
    else if c == ESC && d == 'f' then
      if Ch(p, i + 2) != '[' then [Broken(MissingAfterF)]
      else
        match ClassEnd(p, i + 2)
        case Malformed(e) => [Broken(e)]
        case At(ep) => [Frontier(BracketAt(p, i + 2, ep - 1))] + Items(ct, p, ep)
    else if c == ESC && Digit(d) then [Back(d)] + Items(ct, p, i + 2)
    else if c == '$' && d == '\0' then [AtEnd]
    else
      match ClassEnd(p, i)
      case Malformed(e) => [Broken(e)]
      case At(ep) =>
        var s, x := SetAt(p, i, ep), Ch(p, ep);
        if x == '?' then [Opt(s)] + Items(ct, p, ep + 1)
        else if x == '*' then [Star(s)] + Items(ct, p, ep + 1)
        else if x == '+' then [Plus(s)] + Items(ct, p, ep + 1)
        else if x == '-' then [Minus(s)] + Items(ct, p, ep + 1)
        else [One(s)] + Items(ct, p, ep)
  }
}
