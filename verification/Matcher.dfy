// The pattern matcher: it backtracks over the characters of the pattern, and undoes its
// captures when it fails.

module Matchers {
  import opened PatternItems
  import opened PatternMeaning

  const NULL: int := -1

  // What a C function that returns a pointer or raises an error has done.
  datatype Res = Null | Pointer(e: nat) | Error(err: PatternItems.Error)

  class MatchState {
    const ct: Ctype
    const src: string
    const pat: string
    var level: nat
    const capture: array<Cap>

    ghost predicate Valid()
      reads this
    {
      capture.Length == MAXCAPTURES && level <= MAXCAPTURES
    }

    function Caps(): seq<Cap>
      requires Valid()
      reads this, capture
    {
      capture[..level]
    }

    constructor (ct: Ctype, src: string, pat: string)
      ensures Valid() && this.ct == ct && this.src == src && this.pat == pat && Caps() == [] && fresh(capture)
    {
      this.ct, this.src, this.pat, level := ct, src, pat, 0;
      capture := new Cap[MAXCAPTURES](_ => Cap(0, 0));
    }

    // The matches of the pattern from p on, at s.
    ghost function All(s: nat, p: nat, caps: seq<Cap>): seq<Found>
      reads this
    {
      Results(ct, src, Items(ct, pat, p), s, caps)
    }

    // r and the captures are what the first match says; without a match, nothing has changed.
    ghost predicate Follows(r: Res, f: Found, caps0: seq<Cap>)
      requires Valid()
      reads this, capture
    {
      match f
      case NotFound => r == Null && Caps() == caps0
      case Ended(e, caps) => r == Pointer(e) && e <= |src| && Caps() == caps
      case Raised(err) => r == Error(err)
    }

    // ----- reading the pattern -----

    // classend
    method ClassEnd(p0: nat) returns (r: EndOf)
      requires p0 < |pat|
      ensures r == PatternItems.ClassEnd(pat, p0)
    {
      var p: nat := p0 + 1;
      if Ch(pat, p0) == ESC {
        if Ch(pat, p) == '\0' { return Malformed(EndsWithEscape); }
        return At(p + 1);
      } else if Ch(pat, p0) == '[' {
        if Ch(pat, p) == '^' { p := p + 1; }
        ghost var start := p;
        var again := true;
        while again
          invariant p <= |pat|
          invariant if again then BracketEnd(pat, start) == BracketEnd(pat, p)
                    else Ch(pat, p) == ']' && BracketEnd(pat, start) == At(p + 1)
          decreases if again then |pat| - p + 1 else 0
        {
          if Ch(pat, p) == '\0' { return Malformed(MissingBracket); }
          var escape := Ch(pat, p) == ESC;
          p := p + 1;
          if escape && Ch(pat, p) != '\0' { p := p + 1; }
          again := Ch(pat, p) != ']';
        }
        return At(p + 1);
      } else {
        return At(p);
      }
    }

    // matchbracketclass, for the bracket from p0 to its `]' at ec
    method MatchBracketClass(c: char, p0: nat, ec: nat) returns (b: bool)
      requires p0 < ec
      ensures b == InSet(ct, c, BracketAt(pat, p0, ec))
    {
      hide InSet, BracketAt, Holds, Elems, MatchClass;
      BracketHolds(ct, c, pat, p0, ec);
      NoneHolds(ct, c);
      var sig, p := true, p0;
      if Ch(pat, p + 1) == '^' {
        sig := false;
        p := p + 1;
      }
      p := p + 1;
      ghost var all := Elems(pat, p, ec);
      while p < ec
        invariant p0 < p
        invariant Holds(ct, c, all) == Holds(ct, c, Elems(pat, p, ec))
      {
        ElemsStep(ct, c, pat, p, ec);
        if Ch(pat, p) == ESC {
          p := p + 1;
          if MatchClass(ct, c, Ch(pat, p)) { return sig; }
        } else if Ch(pat, p + 1) == '-' && p + 2 < ec {
          p := p + 2;
          if Ch(pat, p - 2) <= c <= Ch(pat, p) { return sig; }
        } else if Ch(pat, p) == c {
          return sig;
        }
        p := p + 1;
      }
      assert Elems(pat, p, ec) == [] by { NoElems(pat, p, ec); }
      return !sig;
    }

    // singlematch
    method SingleMatch(c: char, p: nat, ep: nat) returns (b: bool)
      requires p < ep && (Ch(pat, p) == '[' ==> p + 1 < ep)
      ensures b == InSet(ct, c, SetAt(pat, p, ep))
    {
      if Ch(pat, p) == '.' { return true; }
      if Ch(pat, p) == ESC { return MatchClass(ct, c, Ch(pat, p + 1)); }
      if Ch(pat, p) == '[' { b := MatchBracketClass(c, p, ep - 1); return; }
      return Ch(pat, p) == c;
    }

    // ----- one item -----

    // matchbalance, once it is known that the pattern has its two characters
    method MatchBalance(s0: nat, b: char, e: char) returns (t: int)
      requires s0 <= |src| && b != '\0'
      ensures t == BalanceEnd(src, s0, b, e)
    {
      if Ch(src, s0) != b { return NULL; }
      var cont, s := 1, s0 + 1;
      if s0 == |src| { return NULL; }
      while s < |src|
        invariant s0 < s <= |src| && cont >= 1
        invariant BalanceEnd(src, s0, b, e) == Scan(src, s, b, e, cont)
      {
        if src[s] == e {
          cont := cont - 1;
          if cont == 0 { return s + 1; }
        } else if src[s] == b {
          cont := cont + 1;
        }
        s := s + 1;
      }
      return NULL;
    }

    // capture_to_close
    method CaptureToClose() returns (l: int)
      requires Valid()
      ensures l == ToClose(Caps())
    {
      l := level - 1;
      while l >= 0
        invariant -1 <= l < level
        invariant ToClose(Caps()) == ToClose(capture[..l + 1])
      {
        assert capture[..l + 1][..l] == capture[..l];
        if capture[l].len == CAP_UNFINISHED { return; }
        l := l - 1;
      }
    }

    // check_capture and match_capture
    method MatchCapture(s: nat, l: char) returns (r: Res)
      requires Valid() && s <= |src|
      ensures var k := Referred(Caps(), l);
              r == if k < 0 then Error(InvalidIndex) else if Repeats(src, s, Caps()[k]) then Pointer(s + Caps()[k].len)
              else Null
    {
      var k := l as int - '1' as int;
      if k < 0 || k >= level || capture[k].len == CAP_UNFINISHED { return Error(InvalidIndex); }
      var len, init := capture[k].len, capture[k].init;
      // as an unsigned number, the length of a position capture is larger than any text
      if len >= 0 && |src| - s >= len && init + len <= |src| && src[init..init + len] == src[s..s + len] {
        return Pointer(s + len);
      }
      return Null;
    }

    // ----- matching -----

    // A match with no capture yet.
    method Begin(s: nat, p: nat) returns (r: Res)
      requires Valid() && s <= |src| && p <= |pat|
      modifies this`level, capture
      ensures Valid()
      ensures match First(Results(ct, src, Items(ct, pat, p), s, []))
              case NotFound => r == Null
              case Ended(e, caps) => r == Pointer(e) && e <= |src| && Caps() == caps
              case Raised(err) => r == Error(err)
      decreases |pat| - p, 2
    {
      hide Results, Items;
      level := 0;
      r := Match(s, p);
    }

    // match
    method Match(s0: nat, p0: nat) returns (r: Res)
      requires Valid() && s0 <= |src| && p0 <= |pat|
      modifies this`level, capture
      ensures Valid() && Follows(r, First(All(s0, p0, old(Caps()))), old(Caps()))
      decreases |pat| - p0, 1
    {
      hide Results, InSet, ResultsOf, PatternItems.ClassEnd, SetAt, BracketAt, BracketEnd, Items, MatchState.Caps;
      var s: nat, p: nat := s0, p0;
      ghost var caps := Caps();
      while true
        invariant Valid() && s <= |src| && p0 <= p <= |pat| && Caps() == caps
        invariant First(All(s0, p0, caps)) == First(All(s, p, caps))
        decreases |pat| - p
      {
        var c, d := Ch(pat, p), Ch(pat, p + 1);
        ItemsAt(ct, src, pat, p, s, caps);
        if c == '(' {
          if d == ')' {
            r := StartCapture(s, p + 2, CAP_POSITION);
          } else {
            r := StartCapture(s, p + 1, CAP_UNFINISHED);
          }
          return;
        } else if c == ')' {
          r := EndCapture(s, p + 1);
          return;
        } else if c == ESC && d == 'b' {
          if Ch(pat, p + 2) == '\0' || Ch(pat, p + 3) == '\0' { return Error(Unbalanced); }
          var t := MatchBalance(s, Ch(pat, p + 2), Ch(pat, p + 3));
          if t == NULL { return Null; }
          s, p := t, p + 4;
        } else if c == ESC && d == 'f' {
          if Ch(pat, p + 2) != '[' { return Error(MissingAfterF); }
          var ep := ClassEnd(p + 2);
          if ep.Malformed? { return Error(ep.err); }
          BracketLength(pat, p + 2);
          var previous := if s == 0 then '\0' else src[s - 1];
          var before := MatchBracketClass(previous, p + 2, ep.ep - 1);
          var here := MatchBracketClass(Ch(src, s), p + 2, ep.ep - 1);
          if before || !here { return Null; }
          p := ep.ep;
        } else if c == ESC && Digit(d) {
          var t := MatchCapture(s, d);
          if !t.Pointer? { return t; }
          s, p := t.e, p + 2;
        } else if c == '\0' {
          return Pointer(s);
        } else if c == '$' && d == '\0' {
          return if s == |src| then Pointer(s) else Null;
        } else {
          var go;
          go, s, p, r := Item(s, p);
          if !go { return; }
        }
      }
    }

    // The default case of match: go on at s and p, or r is the result.
    method Item(s: nat, p: nat) returns (go: bool, s': nat, p': nat, r: Res)
      requires Valid() && s <= |src| && p < |pat| && Plain(ct, pat, p)
      modifies this`level, capture
      ensures Valid() && s' <= |src| && p < p' <= |pat| + 1
      ensures go ==> p' <= |pat| && Caps() == old(Caps())
      ensures go ==> First(All(s, p, old(Caps()))) == First(All(s', p', old(Caps())))
      ensures !go ==> Follows(r, First(All(s, p, old(Caps()))), old(Caps()))
      decreases |pat| - p, 0
    {
      hide Results, InSet, ResultsOf, PatternItems.ClassEnd, SetAt, BracketAt, BracketEnd, Up;
      ghost var caps := Caps();
      go, s', p', r := false, s, p + 1, Null;
      var end := ClassEnd(p);
      if end.Malformed? {
        PlainItems(ct, src, pat, p, s, caps);
        return go, s', p', Error(end.err);
      }
      var ep := end.ep;
      SetLength(pat, p);
      var m := false;
      if s < |src| { m := SingleMatch(src[s], p, ep); }
      PlainItems(ct, src, pat, p, s, caps);
      var x := Ch(pat, ep);
      if x == '?' {
        if m {
          r := Match(s + 1, ep + 1);
          if r != Null { return; }
          SomeFirst(ct, src, Items(ct, pat, ep + 1), s + 1, caps);
        }
        return true, s, ep + 1, Null;
      } else if x == '*' {
        r := MaxExpand(s, p, ep);
      } else if x == '+' {
        if m { r := MaxExpand(s + 1, p, ep); }
      } else if x == '-' {
        r := MinExpand(s, p, ep);
      } else if m {
        return true, s + 1, ep, Null;
      }
    }

    // max_expand: as many as there are, then one less each time
    method MaxExpand(s: nat, p: nat, ep: nat) returns (r: Res)
      requires Valid() && s <= |src| && p < ep < |pat| && (Ch(pat, p) == '[' ==> p + 1 < ep)
      modifies this`level, capture
      ensures Valid()
      ensures var set' := SetAt(pat, p, ep);
              Follows(r, First(Down(ct, src, Items(ct, pat, ep + 1), s, Longest(ct, src, s, set'), old(Caps()))),
                      old(Caps()))
      decreases |pat| - ep, 0
    {
      hide Results, InSet, SetAt, Down;
      ghost var caps, set', rest := Caps(), SetAt(pat, p, ep), Items(ct, pat, ep + 1);
      var i := 0;
      var more := true;
      while more
        invariant Valid() && Caps() == caps && s + i <= |src|
        invariant Longest(ct, src, s, set') == i + Longest(ct, src, s + i, set')
        invariant !more ==> !Takes(ct, src, s + i, set')
        decreases |src| - i, more
      {
        more := false;
        if s + i < |src| { more := SingleMatch(src[s + i], p, ep); }
        if more { i := i + 1; }
      }
      ghost var n := i;
      while i >= 0
        invariant Valid() && Caps() == caps && -1 <= i <= n
        invariant First(Down(ct, src, rest, s, n, caps)) == if i < 0 then NotFound
                  else First(Down(ct, src, rest, s, i, caps))
      {
        r := Match(s + i, ep + 1);
        DownStep(ct, src, rest, s, i, caps);
        if r != Null { return; }
        i := i - 1;
      }
      return Null;
    }

    // min_expand: as few as possible, then one more each time
    method MinExpand(s0: nat, p: nat, ep: nat) returns (r: Res)
      requires Valid() && s0 <= |src| && p < ep < |pat| && (Ch(pat, p) == '[' ==> p + 1 < ep)
      modifies this`level, capture
      ensures Valid()
      ensures Follows(r, First(Up(ct, src, Items(ct, pat, ep + 1), SetAt(pat, p, ep), s0, old(Caps()))), old(Caps()))
      decreases |pat| - ep, 0
    {
      hide Results, InSet, SetAt;
      ghost var caps, set', rest := Caps(), SetAt(pat, p, ep), Items(ct, pat, ep + 1);
      var s := s0;
      while true
        invariant Valid() && Caps() == caps && s <= |src|
        invariant First(Up(ct, src, rest, set', s0, caps)) == First(Up(ct, src, rest, set', s, caps))
        decreases |src| - s
      {
        r := Match(s, ep + 1);
        UpStep(ct, src, rest, set', s, caps);
        if r != Null { return; }
        var more := false;
        if s < |src| { more := SingleMatch(src[s], p, ep); }
        if !more { return Null; }
        s := s + 1;
      }
    }

    // start_capture
    method StartCapture(s: nat, p: nat, what: int) returns (r: Res)
      requires Valid() && s <= |src| && p <= |pat|
      modifies this`level, capture
      ensures Valid()
      ensures |old(Caps())| >= MAXCAPTURES ==> r == Error(TooManyCaptures)
      ensures |old(Caps())| < MAXCAPTURES ==> Follows(r, First(All(s, p, old(Caps()) + [Cap(s, what)])), old(Caps()))
      decreases |pat| - p, 2
    {
      hide Results;
      ghost var caps := Caps();
      if level >= MAXCAPTURES { return Error(TooManyCaptures); }
      capture[level] := Cap(s, what);
      level := level + 1;
      assert Caps() == caps + [Cap(s, what)];
      r := Match(s, p);
      if r == Null {
        assert (caps + [Cap(s, what)])[..level - 1] == caps;
        level := level - 1;
      }
    }

    // end_capture
    method EndCapture(s: nat, p: nat) returns (r: Res)
      requires Valid() && s <= |src| && p <= |pat|
      modifies this`level, capture
      ensures Valid()
      ensures var l := ToClose(old(Caps()));
              if l < 0 then r == Error(NoCaptureToClose)
              else Follows(r, First(All(s, p, Closed(old(Caps()), l, s))), old(Caps()))
      decreases |pat| - p, 2
    {
      hide Results;
      ghost var caps := Caps();
      var l := CaptureToClose();
      if l < 0 { return Error(NoCaptureToClose); }
      capture[l] := Cap(capture[l].init, s - capture[l].init);
      assert Caps() == Closed(caps, l, s);
      r := Match(s, p);
      if r == Null {
        capture[l] := Cap(capture[l].init, CAP_UNFINISHED);
        assert Caps() == caps;
      }
    }
  }

  // Some element has c.
  predicate Holds(ct: Ctype, c: char, elems: seq<Elem>) {
    exists x :: x in elems && InElem(ct, c, x)
  }

  lemma BracketHolds(ct: Ctype, c: char, p: string, i: nat, ec: nat)
    ensures InSet(ct, c, BracketAt(p, i, ec)) ==
            (if Ch(p, i + 1) == '^' then !Holds(ct, c, Elems(p, i + 2, ec)) else Holds(ct, c, Elems(p, i + 1, ec)))
  {
  }

  lemma NoElems(p: string, i: nat, ec: nat)
    requires i >= ec
    ensures Elems(p, i, ec) == []
  {
  }

  lemma NoneHolds(ct: Ctype, c: char)
    ensures !Holds(ct, c, [])
  {
  }

  lemma ElemsStep(ct: Ctype, c: char, p: string, i: nat, ec: nat)
    requires i < ec
    ensures var x, next :=
              if Ch(p, i) == ESC then Letter(Ch(p, i + 1))
              else if Ch(p, i + 1) == '-' && i + 2 < ec then Range(Ch(p, i), Ch(p, i + 2)) else Just(Ch(p, i)),
              if Ch(p, i) == ESC then i + 2 else if Ch(p, i + 1) == '-' && i + 2 < ec then i + 3 else i + 1;
            Holds(ct, c, Elems(p, i, ec)) == (InElem(ct, c, x) || Holds(ct, c, Elems(p, next, ec)))
  {
    var x := Elems(p, i, ec)[0];
    assert x in Elems(p, i, ec);
  }

  // None of the cases before the default one of match.
  predicate Plain(ct: Ctype, p: string, i: nat) {
    var c, d := Ch(p, i), Ch(p, i + 1);
    c != '\0' && c != '(' && c != ')' && !(c == ESC && (d == 'b' || d == 'f' || Digit(d))) && !(c == '$' && d == '\0')
  }

  // What the next item of the pattern says about the matches.
  lemma ItemsAt(ct: Ctype, src: string, p: string, i: nat, s: nat, caps: seq<Cap>)
    ensures var c, d := Ch(p, i), Ch(p, i + 1);
            var here := Results(ct, src, Items(ct, p, i), s, caps);
            && (c == '\0' ==> here == [Ended(s, caps)])
            && (c == '(' && |caps| >= MAXCAPTURES ==> here == [Raised(TooManyCaptures)])
            && (c == '(' && |caps| < MAXCAPTURES ==>
              here == (if d == ')' then Results(ct, src, Items(ct, p, i + 2), s, caps + [Cap(s, CAP_POSITION)])
                       else Results(ct, src, Items(ct, p, i + 1), s, caps + [Cap(s, CAP_UNFINISHED)])))
            && (c == ')' ==>
              here == (var l := ToClose(caps);
                       if l < 0 then [Raised(NoCaptureToClose)]
                       else Results(ct, src, Items(ct, p, i + 1), s, Closed(caps, l, s))))
            && (c == ESC && d == 'b' ==> here == ResultsAtBalance(ct, src, p, i, s, caps))
            && (c == ESC && d == 'f' ==> here == ResultsAtFrontier(ct, src, p, i, s, caps))
            && (c == ESC && d != 'b' && d != 'f' && Digit(d) ==>
              here == (var k := Referred(caps, d);
                       if k < 0 then [Raised(InvalidIndex)]
                       else if Repeats(src, s, caps[k])
                       then Results(ct, src, Items(ct, p, i + 2), s + caps[k].len, caps) else []))
            && (c == '$' && d == '\0' ==> here == (if s == |src| then [Ended(s, caps)] else []))
  {
    hide InSet, BalanceEnd, AtFrontier, Repeats, BracketAt, SetAt;
    assert [AtEnd][1..] == [];
  }

  function ResultsAtBalance(ct: Ctype, src: string, p: string, i: nat, s: nat, caps: seq<Cap>): seq<Found> {
    if Ch(p, i + 2) == '\0' || Ch(p, i + 3) == '\0' then [Raised(Unbalanced)]
    else
      var t := BalanceEnd(src, s, Ch(p, i + 2), Ch(p, i + 3));
      if t < 0 then [] else Results(ct, src, Items(ct, p, i + 4), t, caps)
  }

  function ResultsAtFrontier(ct: Ctype, src: string, p: string, i: nat, s: nat, caps: seq<Cap>): seq<Found> {
    if Ch(p, i + 2) != '[' then [Raised(MissingAfterF)]
    else
      match PatternItems.ClassEnd(p, i + 2)
      case Malformed(e) => [Raised(e)]
      case At(ep) =>
        if AtFrontier(ct, src, s, BracketAt(p, i + 2, ep - 1)) then Results(ct, src, Items(ct, p, ep), s, caps) else []
  }

  lemma PlainItems(ct: Ctype, src: string, p: string, i: nat, s: nat, caps: seq<Cap>)
    requires Plain(ct, p, i)
    ensures var here := Results(ct, src, Items(ct, p, i), s, caps);
      match PatternItems.ClassEnd(p, i)
      case Malformed(e) => here == [Raised(e)]
      case At(ep) =>
        var set', x := SetAt(p, i, ep), Ch(p, ep);
        var rest := Items(ct, p, ep + 1);
        var one := if Takes(ct, src, s, set') then Results(ct, src, rest, s + 1, caps) else [];
        here ==
          if x == '?' then one + Results(ct, src, rest, s, caps)
          else if x == '*' then Down(ct, src, rest, s, Longest(ct, src, s, set'), caps)
          else if x == '+' then (if Takes(ct, src, s, set')
                                 then Down(ct, src, rest, s + 1, Longest(ct, src, s + 1, set'), caps) else [])
          else if x == '-' then Up(ct, src, rest, set', s, caps)
          else if Takes(ct, src, s, set') then Results(ct, src, Items(ct, p, ep), s + 1, caps) else []
  {
    hide InSet, SetAt, PatternItems.ClassEnd, Down, Up, Longest;
  }

  lemma DownStep(ct: Ctype, src: string, rest: seq<Item>, s: nat, n: nat, caps: seq<Cap>)
    ensures First(Down(ct, src, rest, s, n, caps)) ==
            var f := First(Results(ct, src, rest, s + n, caps));
            if f != NotFound then f else if n == 0 then NotFound else First(Down(ct, src, rest, s, n - 1, caps))
  {
    hide Results;
    SomeFirst(ct, src, rest, s + n, caps);
  }

  lemma UpStep(ct: Ctype, src: string, rest: seq<Item>, c: Set, s: nat, caps: seq<Cap>)
    ensures First(Up(ct, src, rest, c, s, caps)) ==
            var f := First(Results(ct, src, rest, s, caps));
            if f != NotFound then f else if Takes(ct, src, s, c) then First(Up(ct, src, rest, c, s + 1, caps))
            else NotFound
  {
    hide Results, Takes;
    SomeFirst(ct, src, rest, s, caps);
  }

  lemma BracketLength(p: string, i: nat)
    requires Ch(p, i) == '['
    ensures PatternItems.ClassEnd(p, i).At? ==> i + 1 < PatternItems.ClassEnd(p, i).ep <= |p|
  {
  }

  lemma SetLength(p: string, i: nat)
    requires i < |p|
    ensures var r := PatternItems.ClassEnd(p, i); r.At? ==> i < r.ep <= |p| && (Ch(p, i) == '[' ==> i + 1 < r.ep)
  {
  }
}
