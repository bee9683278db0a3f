// string.format("%q") and the lexer: a quoted string is read back as it was.

module Quoting {
  const UCHAR_MAX: int := 255
  const MAX_INT: int := 0x7fff_fffd

  predicate Digit(c: char) {
    '0' <= c <= '9'
  }

  predicate Newline(c: char) {
    c == '\n' || c == '\r'
  }

  // ----- writing -----

  function Quote(c: char): string {
    if c == '"' || c == '\\' || c == '\n' then ['\\', c]
    else if c == '\r' then ['\\', 'r']
    else if c == '\0' then ['\\', '0', '0', '0']
    else [c]
  }

  function Inside(s: string): string {
    if s == "" then "" else Quote(s[0]) + Inside(s[1..])
  }

  function Quoted(s: string): string {
    ['"'] + Inside(s) + ['"']
  }

  lemma InsideStep(s: string, i: nat, b: string)
    requires i < |s|
    ensures b + Inside(s[i..]) == b + Quote(s[i]) + Inside(s[i + 1..])
  {
    assert s[i..][0] == s[i] && s[i..][1..] == s[i + 1..];
  }

  // one character of addquoted
  method AddChar(c: char, b0: string) returns (b: string)
    ensures b == b0 + Quote(c)
  {
    if c == '"' || c == '\\' || c == '\n' {
      b := b0 + ['\\'];
      b := b + [c];
    } else if c == '\r' {
      b := b0 + ['\\', 'r'];
    } else if c == '\0' {
      b := b0 + ['\\', '0', '0', '0'];
    } else {
      b := b0 + [c];
    }
  }

  // addquoted
  method AddQuoted(s: string, b0: string) returns (b: string)
    ensures b == b0 + Quoted(s)
  {
    hide Inside, Quote;
    b := b0 + ['"'];
    assert s[0..] == s;
    for i := 0 to |s|
      invariant b + Inside(s[i..]) == b0 + ['"'] + Inside(s)
    {
      InsideStep(s, i, b);
      b := AddChar(s[i], b);
    }
    InsideNone(s, b);
    b := b + ['"'];
    assert b0 + ['"'] + Inside(s) + ['"'] == b0 + Quoted(s);
  }

  lemma InsideNone(s: string, b: string)
    ensures b + Inside(s[|s|..]) == b
  {
  }

  // ----- reading -----

  datatype Error = Unfinished | TooLarge | TooManyLines

  // What is read after the opening delimiter: the string, where its text ends, and the line.
  datatype Lexed = Token(value: string, next: nat, line: int) | Failed(err: Error)

  function Prepend(x: string, r: Lexed): Lexed {
    match r
    case Token(v, next, line) => Token(x + v, next, line)
    case Failed(err) => Failed(err)
  }

  // After a newline at i: two different newline characters are one line end.
  function AfterNewline(z: string, i: nat): (j: nat)
    requires i < |z|
    ensures i < j <= |z|
  {
    if i + 1 < |z| && Newline(z[i + 1]) && z[i + 1] != z[i] then i + 2 else i + 1
  }

  // The end of the digits of an escape, three at most, and its value.
  function DigitsEnd(z: string, i: nat): (j: nat)
    requires i < |z|
    ensures i < j <= i + 3 && j <= |z|
  {
    if i + 1 < |z| && Digit(z[i + 1]) then (if i + 2 < |z| && Digit(z[i + 2]) then i + 3 else i + 2) else i + 1
  }

  function Number(z: string): int {
    if z == "" then 0 else 10 * Number(z[..|z| - 1]) + (z[|z| - 1] as int - '0' as int)
  }

  function Escaped(c: char): char {
    match c
    case 'a' => 7 as char
    case 'b' => 8 as char
    case 'f' => 12 as char
    case 'n' => '\n'
    case 'r' => '\r'
    case 't' => '\t'
    case 'v' => 11 as char
    case _ => c
  }

  // The text z from i on, up to the delimiter.
  function Read(z: string, i: nat, del: char, line: int): Lexed
    decreases if i < |z| then |z| - i else 0
  {
    if i >= |z| then Failed(Unfinished)
    else if z[i] == del then Token("", i + 1, line)
    else if Newline(z[i]) then Failed(Unfinished)
    else if z[i] != '\\' then Prepend([z[i]], Read(z, i + 1, del, line))
    else if i + 1 >= |z| then Failed(Unfinished)
    else if Newline(z[i + 1]) then
      if line + 1 >= MAX_INT then Failed(TooManyLines)
      else Prepend("\n", Read(z, AfterNewline(z, i + 1), del, line + 1))
    else if !Digit(z[i + 1]) then Prepend([Escaped(z[i + 1])], Read(z, i + 2, del, line))
    else
      var j := DigitsEnd(z, i + 1);
      var c := Number(z[i + 1..j]);
      if !(0 <= c <= UCHAR_MAX) then Failed(TooLarge) else Prepend([c as char], Read(z, j, del, line))
  }

  lemma PrependNone(r: Lexed)
    ensures Prepend("", r) == r
  {
    if r.Token? { assert "" + r.value == r.value; }
  }

  lemma PrependTwice(a: string, b: string, r: Lexed)
    ensures Prepend(a, Prepend(b, r)) == Prepend(a + b, r)
  {
    if r.Token? { assert a + (b + r.value) == a + b + r.value; }
  }

  // One step of the reader, after what has been saved.
  lemma ReadStep(b: string, z: string, i: nat, del: char, line: int)
    requires i < |z| && z[i] != del && !Newline(z[i])
    ensures Prepend(b, Read(z, i, del, line)) ==
            if z[i] != '\\' then Prepend(b + [z[i]], Read(z, i + 1, del, line))
            else if i + 1 >= |z| then Failed(Unfinished)
            else if Newline(z[i + 1]) then
              (if line + 1 >= MAX_INT then Failed(TooManyLines)
               else Prepend(b + "\n", Read(z, AfterNewline(z, i + 1), del, line + 1)))
            else if !Digit(z[i + 1]) then Prepend(b + [Escaped(z[i + 1])], Read(z, i + 2, del, line))
            else
              var j := DigitsEnd(z, i + 1);
              var c := Number(z[i + 1..j]);
              if !(0 <= c <= UCHAR_MAX) then Failed(TooLarge) else Prepend(b + [c as char], Read(z, j, del, line))
  {
    hide Number, Escaped;
    if z[i] != '\\' {
      PrependTwice(b, [z[i]], Read(z, i + 1, del, line));
    } else if i + 1 < |z| {
      if Newline(z[i + 1]) {
        PrependTwice(b, "\n", Read(z, AfterNewline(z, i + 1), del, line + 1));
      } else if !Digit(z[i + 1]) {
        PrependTwice(b, [Escaped(z[i + 1])], Read(z, i + 2, del, line));
      } else {
        var j := DigitsEnd(z, i + 1);
        var c := Number(z[i + 1..j]);
        if 0 <= c <= UCHAR_MAX { PrependTwice(b, [c as char], Read(z, j, del, line)); }
      }
    }
  }

  lemma ReadEnds(z: string, i: nat, del: char, line: int)
    ensures i >= |z| ==> Read(z, i, del, line) == Failed(Unfinished)
    ensures i < |z| && z[i] == del ==> Read(z, i, del, line) == Token("", i + 1, line)
    ensures i < |z| && z[i] != del && Newline(z[i]) ==> Read(z, i, del, line) == Failed(Unfinished)
  {
  }

  lemma NumberStep(z: string, i: nat, j: nat)
    requires i <= j < |z|
    ensures Number(z[i..i]) == 0
    ensures Number(z[i..j + 1]) == 10 * Number(z[i..j]) + (z[j] as int - '0' as int)
  {
    assert z[i..j + 1][..j - i] == z[i..j];
  }

  lemma {:induction false} NumberNotNegative(z: string)
    requires forall c :: c in z ==> Digit(c)
    ensures Number(z) >= 0
    decreases |z|
  {
    if z != "" {
      assert z[|z| - 1] in z;
      NumberNotNegative(z[..|z| - 1]);
    }
  }

  // The lexer: read_string and what it calls, over the text of a chunk.
  class LexState {
    const z: string
    var pos: nat             // of the current character; the end of the text is EOZ
    var linenumber: int
    var buffer: string

    constructor (z: string, pos: nat, linenumber: int)
      ensures this.z == z && this.pos == pos && this.linenumber == linenumber && buffer == ""
    {
      this.z, this.pos, this.linenumber, buffer := z, pos, linenumber, "";
    }

    // What there is to come, after what has been saved.
    ghost function Rest(del: char): Lexed
      reads this
    {
      Prepend(buffer, Read(z, pos, del, linenumber))
    }

    method SaveAndNext()
      requires pos < |z|
      modifies this
      ensures buffer == old(buffer) + [z[old(pos)]] && pos == old(pos) + 1 && linenumber == old(linenumber)
    {
      buffer, pos := buffer + [z[pos]], pos + 1;
    }

    // inclinenumber
    method IncLineNumber() returns (err: bool)
      requires pos < |z| && Newline(z[pos])
      modifies this`pos, this`linenumber
      ensures pos == AfterNewline(z, old(pos)) && linenumber == old(linenumber) + 1
      ensures err <==> linenumber >= MAX_INT
    {
      var was := z[pos];
      pos := pos + 1;
      if pos < |z| && Newline(z[pos]) && z[pos] != was { pos := pos + 1; }
      linenumber := linenumber + 1;
      return linenumber >= MAX_INT;
    }

    // The number of an escape: at most three digits.
    method ReadDigits() returns (c: int)
      requires pos < |z| && Digit(z[pos])
      modifies this`pos
      ensures pos == DigitsEnd(z, old(pos)) && c == Number(z[old(pos)..pos])
    {
      hide Number;
      ghost var start := pos;
      var i := 0;
      c := 0;
      NumberStep(z, start, start);
      var more := true;
      while more
        invariant start <= pos <= |z| && i == pos - start <= 3 && c == Number(z[start..pos])
        invariant more ==> i < 3 && pos < |z| && Digit(z[pos])
        invariant i >= 1 ==> pos <= DigitsEnd(z, start)
        invariant !more ==> pos == DigitsEnd(z, start)
        decreases 3 - i, more
      {
        NumberStep(z, start, pos);
        c := 10 * c + (z[pos] as int - '0' as int);
        pos := pos + 1;
        i := i + 1;
        more := i < 3 && pos < |z| && Digit(z[pos]);
      }
    }

    // read_string, from a backslash on
    method ReadEscape(del: char) returns (failed: bool, err: Error)
      requires pos < |z| && z[pos] == '\\' && z[pos] != del
      modifies this
      ensures failed ==> old(Rest(del)) == Failed(err)
      ensures !failed ==> Rest(del) == old(Rest(del)) && pos > old(pos)
    {
      hide Number, Read, Escaped, AfterNewline;
      ReadStep(buffer, z, pos, del, linenumber);
      pos := pos + 1;
      failed, err := false, Unfinished;
      if pos >= |z| {
        return true, Unfinished;  // the error that the next round raises
      } else if Newline(z[pos]) {
        buffer := buffer + "\n";
        failed := IncLineNumber();
        return failed, TooManyLines;
      } else if !Digit(z[pos]) {
        buffer, pos := buffer + [Escaped(z[pos])], pos + 1;
      } else {
        ghost var start := pos;
        var c := ReadDigits();
        NumberNotNegative(z[start..pos]);
        if c > UCHAR_MAX { return true, TooLarge; }
        buffer := buffer + [c as char];
      }
    }

    // read_string, after its delimiter
    method ReadString(del: char) returns (r: Lexed)
      requires pos < |z|
      modifies this
      ensures r == Read(z, old(pos) + 1, del, old(linenumber))
      ensures r.Token? ==> pos == r.next && linenumber == r.line
    {
      hide Number, AfterNewline, Newline, Escaped, Read;
      buffer := "";
      pos := pos + 1;
      ghost var all := Rest(del);
      PrependNone(Read(z, pos, del, linenumber));
      while !(pos < |z| && z[pos] == del)
        invariant Rest(del) == all
        decreases if pos < |z| then |z| - pos else 0
      {
        ReadEnds(z, pos, del, linenumber);
        if pos >= |z| {
          return Failed(Unfinished);
        } else if Newline(z[pos]) {
          return Failed(Unfinished);
        }
        if z[pos] == '\\' {
          var failed, err := ReadEscape(del);
          if failed { return Failed(err); }
        } else {
          ReadStep(buffer, z, pos, del, linenumber);
          SaveAndNext();
        }
      }
      ReadEnds(z, pos, del, linenumber);
      assert buffer + "" == buffer;
      pos := pos + 1;
      return Token(buffer, pos, linenumber);
    }
  }

  // ----- the round trip -----

  function Newlines(s: string): nat {
    if s == "" then 0 else (if s[0] == '\n' then 1 else 0) + Newlines(s[1..])
  }

  // The text of s, quoted, stands at i.
  predicate StandsAt(z: string, i: nat, s: string) {
    i + |Inside(s)| < |z| && z[i..i + |Inside(s)|] == Inside(s) && z[i + |Inside(s)|] == '"'
  }

  lemma StandsNext(z: string, i: nat, s: string)
    requires s != "" && StandsAt(z, i, s)
    ensures i + |Quote(s[0])| <= |z| && z[i..i + |Quote(s[0])|] == Quote(s[0])
    ensures StandsAt(z, i + |Quote(s[0])|, s[1..])
  {
    var q, rest := Quote(s[0]), Inside(s[1..]);
    var all := z[i..i + |Inside(s)|];
    assert all == q + rest;
    assert all[..|q|] == z[i..i + |q|];
    assert all[|q|..] == z[i + |q|..i + |Inside(s)|];
  }

  lemma StartsWell(z: string, i: nat, s: string)
    requires StandsAt(z, i, s)
    ensures !Newline(z[i])
  {
    if s != "" {
      StandsNext(z, i, s);
      assert z[i] == z[i..i + |Quote(s[0])|][0];
    }
  }

  // Reading the quoted text gives the string back and counts its newlines, unless that makes
  // too many lines.
  lemma {:induction false} ReadQuoted(z: string, i: nat, s: string, line: int)
    requires StandsAt(z, i, s)
    ensures Read(z, i, '"', line) ==
            if Newlines(s) == 0 || line + Newlines(s) < MAX_INT
            then Token(s, i + |Inside(s)| + 1, line + Newlines(s)) else Failed(TooManyLines)
    decreases |s|
  {
    hide Quote, Newline;
    if s != "" {
      hide Read, Quote;
      var c, q := s[0], Quote(s[0]);
      StandsNext(z, i, s);
      StartsWell(z, i + |q|, s[1..]);
      ReadOne(z, i, c, line);
      ReadQuoted(z, i + |q|, s[1..], if c == '\n' then line + 1 else line);
      assert [c] + s[1..] == s;
    }
  }

  lemma ReadOne(z: string, i: nat, c: char, line: int)
    requires i + |Quote(c)| < |z| && z[i..i + |Quote(c)|] == Quote(c) && !Newline(z[i + |Quote(c)|])
    ensures Read(z, i, '"', line) ==
            if c == '\n' && line + 1 >= MAX_INT then Failed(TooManyLines)
            else Prepend([c], Read(z, i + |Quote(c)|, '"', if c == '\n' then line + 1 else line))
  {
    hide Number;
    var q := Quote(c);
    assert z[i] == z[i..i + |q|][0];
    assert |q| > 1 ==> z[i + 1] == z[i..i + |q|][1];
    if c == '\0' {
      assert z[i + 1..i + 4] == q[1..];
      ReadZero(z, i + 1);
    }
  }

  lemma ReadZero(z: string, i: nat)
    requires i + 3 <= |z| && z[i..i + 3] == ['0', '0', '0']
    ensures Digit(z[i]) && DigitsEnd(z, i) == i + 3 && Number(z[i..i + 3]) == 0
  {
    assert z[i] == z[i..i + 3][0] && z[i + 1] == z[i..i + 3][1] && z[i + 2] == z[i..i + 3][2];
    NumberStep(z, i, i);
    NumberStep(z, i, i + 1);
    NumberStep(z, i, i + 2);
  }

  // string.format("%q", s), and then the lexer over it.
  method FormatAndRead(s: string, line: int) returns (r: Lexed)
    ensures r == if Newlines(s) == 0 || line + Newlines(s) < MAX_INT
                 then Token(s, |Quoted(s)|, line + Newlines(s)) else Failed(TooManyLines)
  {
    hide Read, Inside;
    var z := AddQuoted(s, "");
    assert "" + Quoted(s) == Quoted(s);
    assert z[1..1 + |Inside(s)|] == Inside(s);
    var ls := new LexState(z, 0, line);
    r := ls.ReadString('"');
    ReadQuoted(z, 1, s, line);
  }
}
