// How strings are spelled in a program, and what the lexer reads.

module StringSpelling {
  import opened Quoting

  // A character as it stands; a letter or another character after a backslash; a code of
  // one, two or three digits; the end of a line after a backslash.
  datatype Piece = Plain(c: char) | Letter(c: char) | Code(n: nat, width: nat) | Line(text: string)

  const LETTERS: map<char, char> := map[
    'a' := 7 as char, 'b' := 8 as char, 't' := 9 as char, 'n' := 10 as char, 'v' := 11 as char, 'f' := 12 as char,
    'r' := 13 as char]

  function Digits(n: nat, width: nat): string {
    if width == 0 then "" else Digits(n / 10, width - 1) + [('0' as int + n % 10) as char]
  }

  function Ten(width: nat): nat {
    if width == 0 then 1 else 10 * Ten(width - 1)
  }

  function Spelled(x: Piece): string {
    match x
    case Plain(c) => [c]
    case Letter(c) => ['\\', c]
    case Code(n, width) => ['\\'] + Digits(n, width)
    case Line(text) => ['\\'] + text
  }

  function SpelledAll(ps: seq<Piece>): string {
    if ps == [] then "" else Spelled(ps[0]) + SpelledAll(ps[1..])
  }

  function Means(x: Piece): char {
    match x
    case Plain(c) => c
    case Letter(c) => if c in LETTERS then LETTERS[c] else c
    case Code(n, _) => if n <= 255 then n as char else '?'
    case Line(_) => '\n'
  }

  function MeansAll(ps: seq<Piece>): string {
    if ps == [] then "" else [Means(ps[0])] + MeansAll(ps[1..])
  }

  predicate Proper(x: Piece, del: char) {
    match x
    case Plain(c) => c != del && c != '\\' && !Newline(c)
    case Letter(c) => !Digit(c) && !Newline(c)
    case Code(n, width) => 1 <= width <= 3 && n < Ten(width) && n <= UCHAR_MAX
    case Line(text) => text in {"\n", "\r", "\n\r", "\r\n"}
  }

  // What follows cannot be taken for a part of the piece.
  predicate Apart(x: Piece, z: string, i: nat) {
    i < |z| ==> (x.Code? && x.width < 3 ==> !Digit(z[i])) && (x.Line? ==> !Newline(z[i]))
  }

  // The pieces stand in z at i, up to j, each apart from what follows it.
  predicate Stand(z: string, i: nat, ps: seq<Piece>, j: nat, del: char)
    decreases |ps|
  {
    if ps == [] then i == j <= |z|
    else
      var next := i + |Spelled(ps[0])|;
      next <= |z| && z[i..next] == Spelled(ps[0]) && Proper(ps[0], del) && Apart(ps[0], z, next) &&
      Stand(z, next, ps[1..], j, del)
  }

  function Lines(ps: seq<Piece>): nat {
    if ps == [] then 0 else (if ps[0].Line? then 1 else 0) + Lines(ps[1..])
  }

  lemma {:induction false} DigitsAre(n: nat, width: nat)
    requires n < Ten(width)
    ensures |Digits(n, width)| == width && Number(Digits(n, width)) == n
    ensures forall c :: c in Digits(n, width) ==> Digit(c)
    decreases width
  {
    if width > 0 {
      DigitsAre(n / 10, width - 1);
      var s := Digits(n, width);
      assert s[..|s| - 1] == Digits(n / 10, width - 1);
    }
  }

  // One piece is read as what it means.
  lemma PieceRead(z: string, i: nat, x: Piece, del: char, line: int)
    requires del != '\\' && i + |Spelled(x)| <= |z| && z[i..i + |Spelled(x)|] == Spelled(x)
    requires Proper(x, del) && Apart(x, z, i + |Spelled(x)|) && (x.Line? ==> line + 1 < MAX_INT)
    ensures Read(z, i, del, line) ==
            Prepend([Means(x)], Read(z, i + |Spelled(x)|, del, if x.Line? then line + 1 else line))
  {
    hide Number, Digits;
    var t := z[i..i + |Spelled(x)|];
    if x.Code? { DigitsAre(x.n, x.width); }
    assert z[i] == t[0] && (|t| > 1 ==> z[i + 1] == t[1]) && (|t| > 2 ==> z[i + 2] == t[2]);
    if x.Code? {
      assert z[i + 1..i + |t|] == t[1..] == Digits(x.n, x.width);
      CodeEnds(z, i + 1, Digits(x.n, x.width));
    }
  }

  lemma CodeEnds(z: string, i: nat, ds: string)
    requires 1 <= |ds| <= 3 && i + |ds| <= |z| && z[i..i + |ds|] == ds && forall c :: c in ds ==> Digit(c)
    requires |ds| < 3 && i + |ds| < |z| ==> !Digit(z[i + |ds|])
    ensures Digit(z[i]) && DigitsEnd(z, i) == i + |ds|
  {
    IsDigit(z, i, ds, 0);
    if |ds| > 1 { IsDigit(z, i, ds, 1); }
    if |ds| > 2 { IsDigit(z, i, ds, 2); }
  }

  lemma IsDigit(z: string, i: nat, ds: string, k: nat)
    requires i + |ds| <= |z| && z[i..i + |ds|] == ds && k < |ds| && forall c :: c in ds ==> Digit(c)
    ensures Digit(z[i + k])
  {
    assert z[i + k] == z[i..i + |ds|][k];
    assert ds[k] in ds;
  }

  // Pieces are read as what they mean, one after the other, and every end of a line counts.
  lemma {:induction false} PiecesRead(z: string, i: nat, ps: seq<Piece>, j: nat, del: char, line: int)
    requires del != '\\' && Stand(z, i, ps, j, del)
    ensures Lines(ps) == 0 || line + Lines(ps) < MAX_INT ==>
              Read(z, i, del, line) == Prepend(MeansAll(ps), Read(z, j, del, line + Lines(ps)))
    decreases |ps|
  {
    hide Read, Spelled, Proper, Apart, Means;
    if ps == [] {
      PrependNone(Read(z, j, del, line));
    } else if Lines(ps) == 0 || line + Lines(ps) < MAX_INT {
      var x := ps[0];
      var next, line' := i + |Spelled(x)|, if x.Line? then line + 1 else line;
      PieceRead(z, i, x, del, line);
      PiecesRead(z, next, ps[1..], j, del, line');
      PrependTwice([Means(x)], MeansAll(ps[1..]), Read(z, j, del, line + Lines(ps)));
    }
  }

  lemma {:induction false} StandEnds(z: string, i: nat, ps: seq<Piece>, j: nat, del: char)
    requires Stand(z, i, ps, j, del)
    ensures i <= j <= |z|
    decreases |ps|
  {
    if ps != [] { StandEnds(z, i + |Spelled(ps[0])|, ps[1..], j, del); }
  }

  // A literal is a string of pieces up to its delimiter; without one, before the end of the
  // line or of the text, it is unfinished, and a code above 255 is too large.
  lemma LiteralRead(z: string, i: nat, ps: seq<Piece>, j: nat, del: char, line: int)
    requires del != '\\' && !Newline(del) && Stand(z, i, ps, j, del) && (Lines(ps) == 0 || line + Lines(ps) < MAX_INT)
    ensures j <= |z|
    ensures j < |z| && z[j] == del ==> Read(z, i, del, line) == Token(MeansAll(ps), j + 1, line + Lines(ps))
    ensures j == |z| || Newline(z[j]) ==> Read(z, i, del, line) == Failed(Unfinished)
    ensures forall n: nat :: 255 < n < 1000 && j + 4 <= |z| && z[j..j + 4] == ['\\'] + Digits(n, 3) ==>
              Read(z, i, del, line) == Failed(TooLarge)
  {
    hide Read, Stand, Lines, MeansAll, Digits;
    StandEnds(z, i, ps, j, del);
    PiecesRead(z, i, ps, j, del, line);
    ReadEnds(z, j, del, line + Lines(ps));
    if j < |z| && z[j] == del { assert MeansAll(ps) + "" == MeansAll(ps); }
    forall n: nat | 255 < n < 1000 && j + 4 <= |z| && z[j..j + 4] == ['\\'] + Digits(n, 3)
      ensures Read(z, i, del, line) == Failed(TooLarge)
    {
      LargeCode(z, j, n, del, line + Lines(ps));
    }
  }

  lemma LargeCode(z: string, j: nat, n: nat, del: char, line: int)
    requires 255 < n < 1000 && j + 4 <= |z| && z[j..j + 4] == ['\\'] + Digits(n, 3) && del != '\\'
    ensures Read(z, j, del, line) == Failed(TooLarge)
  {
    hide Number, Digits;
    assert Ten(3) == 1000;
    DigitsAre(n, 3);
    var t := z[j..j + 4];
    assert z[j] == t[0] && z[j + 1] == t[1];
    assert z[j + 1..j + 4] == t[1..] == Digits(n, 3);
    CodeEnds(z, j + 1, Digits(n, 3));
  }
}
