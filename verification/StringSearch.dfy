// string.find, string.match, string.gmatch and string.gsub: how they drive the matcher.

module StringSearch {
  import opened PatternItems
  import opened PatternMeaning
  import opened Matchers

  // ----- captures -----

  // The captures lie in the text before s.
  predicate Fits(src: string, caps: seq<Cap>, s: nat) {
    forall c :: c in caps ==>
      c.init <= s && (c.len == CAP_UNFINISHED || c.len == CAP_POSITION || (c.len >= 0 && c.init + c.len <= s))
  }

  lemma {:induction false} DerivesFits(ct: Ctype, src: string, items: seq<Item>, s: nat, caps: seq<Cap>, e: nat,
      caps': seq<Cap>)
    requires s <= |src| && Fits(src, caps, s) && Derives(ct, src, items, s, caps, e, caps')
    ensures s <= e <= |src| && Fits(src, caps', e)
    decreases |items|
  {
    hide Passes, Fits;
    if items != [] {
      var t: nat, caps1 :| Passes(ct, src, items[0], s, caps, t, caps1) &&
        Derives(ct, src, items[1..], t, caps1, e, caps');
      PassesFits(ct, src, items[0], s, caps, t, caps1);
      DerivesFits(ct, src, items[1..], t, caps1, e, caps');
    }
  }

  lemma PassesFits(ct: Ctype, src: string, item: Item, s: nat, caps: seq<Cap>, t: nat, caps': seq<Cap>)
    requires s <= |src| && Fits(src, caps, s) && Passes(ct, src, item, s, caps, t, caps')
    ensures s <= t <= |src| && Fits(src, caps', t)
  {
    hide InSet, AtFrontier, BalanceEnd, Repeats, Stretch, Referred;
    match item
    case Star(c) => StretchFits(ct, src, c, s, t);
    case Plus(c) => StretchFits(ct, src, c, s, t);
    case Minus(c) => StretchFits(ct, src, c, s, t);
    case Back(l) => RepeatsLength(src, s, caps[Referred(caps, l)]);
    case _ =>
  }

  lemma StretchFits(ct: Ctype, src: string, c: Set, s: nat, t: nat)
    requires s <= |src| && Stretch(ct, src, c, s, t)
    ensures s <= t <= |src|
  {
    if t > s { assert Takes(ct, src, t - 1, c); }
  }

  // ----- which matches a search finds -----

  datatype Hit = Hit(start: nat, end: nat, caps: seq<Cap>) | Bad(err: Error)

  // The first start from i to `last' at which the pattern matches or raises an error.
  function Search(ct: Ctype, src: string, items: seq<Item>, i: nat, last: nat): (h: seq<Hit>)
    ensures |h| <= 1
    decreases last + 1 - i
  {
    if i > last then []
    else
      match First(Results(ct, src, items, i, []))
      case NotFound => Search(ct, src, items, i + 1, last)
      case Ended(e, caps) => [Hit(i, e, caps)]
      case Raised(err) => [Bad(err)]
  }

  // No match starts at i, by any derivation.
  ghost predicate Never(ct: Ctype, src: string, items: seq<Item>, i: nat) {
    forall e: nat, caps :: !Derives(ct, src, items, i, [], e, caps)
  }

  lemma FirstMeans(ct: Ctype, src: string, items: seq<Item>, i: nat)
    ensures First(Results(ct, src, items, i, [])) == NotFound ==> Never(ct, src, items, i)
    ensures First(Results(ct, src, items, i, [])).Ended? ==>
              var f := First(Results(ct, src, items, i, [])); Derives(ct, src, items, i, [], f.e, f.caps)
  {
    hide Results, Derives;
    var rs := Results(ct, src, items, i, []);
    SomeFirst(ct, src, items, i, []);
    if rs == [] {
      forall e: nat, caps ensures !Derives(ct, src, items, i, [], e, caps) {
        ResultsAreAll(ct, src, items, i, [], e, caps);
      }
    } else if rs[0].Ended? {
      ResultsAreAll(ct, src, items, i, [], rs[0].e, rs[0].caps);
    }
  }

  // A hit is a match, its captures lie in it or before it, and nothing matches further left.
  lemma {:induction false} SearchMeans(ct: Ctype, src: string, items: seq<Item>, i: nat, last: nat)
    requires last <= |src|
    ensures var h := Search(ct, src, items, i, last);
            && (h == [] ==> forall k :: i <= k <= last ==> Never(ct, src, items, k))
            && (h != [] && h[0].Hit? ==>
                  && i <= h[0].start <= h[0].end <= |src| && h[0].start <= last
                  && Fits(src, h[0].caps, h[0].end)
                  && Derives(ct, src, items, h[0].start, [], h[0].end, h[0].caps)
                  && forall k :: i <= k < h[0].start ==> Never(ct, src, items, k))
    decreases last + 1 - i
  {
    hide Results, Derives, Never, Fits;
    if i <= last {
      FirstMeans(ct, src, items, i);
      match First(Results(ct, src, items, i, []))
      case NotFound => SearchMeans(ct, src, items, i + 1, last);
      case Ended(e, caps) =>
        NoneFits(src, i);
        DerivesFits(ct, src, items, i, [], e, caps);
      case Raised(_) =>
    }
  }

  lemma NoneFits(src: string, s: nat)
    ensures Fits(src, [], s)
  {
  }

  // All the matches of a run from i on: after an empty one, the search moves on by one.
  function Matches(ct: Ctype, src: string, items: seq<Item>, i: nat): seq<Hit>
    decreases |src| + 1 - i
  {
    var h := Search(ct, src, items, i, |src|);
    if h == [] || h[0].Bad? then h
    else
      var next := if h[0].end > h[0].start then h[0].end else h[0].start + 1;
      if next > i then h + Matches(ct, src, items, next) else h
  }

  // Matches in order, none over another.
  predicate Chain(src: string, i: nat, hits: seq<Hit>)
    decreases |hits|
  {
    hits != [] ==>
      match hits[0]
      case Hit(s, e, caps) => i <= s <= e <= |src| && Fits(src, caps, e) && Chain(src, e, hits[1..])
      case Bad(_) => true
  }

  lemma {:induction false} MatchesChain(ct: Ctype, src: string, items: seq<Item>, i: nat, j: nat)
    requires j <= i
    ensures Chain(src, j, Matches(ct, src, items, i))
    decreases |src| + 1 - i
  {
    hide Search, Fits, Derives, Never;
    SearchMeans(ct, src, items, i, |src|);
    var h := Search(ct, src, items, i, |src|);
    if h != [] && h[0].Hit? {
      var next := if h[0].end > h[0].start then h[0].end else h[0].start + 1;
      MatchesChain(ct, src, items, next, h[0].end);
      assert (h + Matches(ct, src, items, next))[1..] == Matches(ct, src, items, next);
    }
  }

  // There is at most one match for each start.
  lemma {:induction false} MatchesBound(ct: Ctype, src: string, items: seq<Item>, i: nat)
    requires i <= |src| + 1
    ensures |Matches(ct, src, items, i)| <= |src| + 1 - i
    decreases |src| + 1 - i
  {
    hide Search, Fits, Derives, Never;
    SearchMeans(ct, src, items, i, |src|);
    var h := Search(ct, src, items, i, |src|);
    if h == [] {
      SearchMisses(ct, src, items, i);
    } else if h[0].Hit? {
      MatchesBound(ct, src, items, if h[0].end > h[0].start then h[0].end else h[0].start + 1);
    } else {
      SearchMisses(ct, src, items, i);
    }
  }

  lemma SearchMisses(ct: Ctype, src: string, items: seq<Item>, i: nat)
    ensures i > |src| ==> Search(ct, src, items, i, |src|) == []
  {
  }

  // ----- the values a match leaves -----

  datatype Value = Text(text: string) | Place(index: int)

  datatype Outcome<T> = Done(value: T) | Failed(err: Error)

  // push_onecapture
  function OneCapture(src: string, caps: seq<Cap>, i: nat, s: nat, e: nat): Outcome<Value>
    requires s <= e <= |src| && Fits(src, caps, e)
  {
    if i >= |caps| then if i == 0 then Done(Text(src[s..e])) else Failed(InvalidIndex)
    else
      var c := caps[i];
      assert c in caps;
      if c.len == CAP_UNFINISHED then Failed(Unfinished)
      else if c.len == CAP_POSITION then Done(Place(c.init + 1))
      else Done(Text(src[c.init..c.init + c.len]))
  }

  function After<T>(prefix: seq<T>, r: Outcome<seq<T>>): Outcome<seq<T>> {
    match r
    case Done(vs) => Done(prefix + vs)
    case Failed(err) => Failed(err)
  }

  lemma AfterAfter<T>(a: seq<T>, b: seq<T>, r: Outcome<seq<T>>)
    ensures After([], r) == r && After(a + b, r) == After(a, After(b, r))
  {
    if r.Done? {
      assert a + b + r.value == a + (b + r.value);
      assert [] + r.value == r.value;
    }
  }

  // The captures from i to n, or the error of the first one that is unfinished.
  function Captured(src: string, caps: seq<Cap>, i: nat, n: nat, s: nat, e: nat): Outcome<seq<Value>>
    requires s <= e <= |src| && Fits(src, caps, e)
    decreases n - i
  {
    if i >= n then Done([])
    else
      match OneCapture(src, caps, i, s, e)
      case Failed(err) => Failed(err)
      case Done(v) => After([v], Captured(src, caps, i + 1, n, s, e))
  }

  // push_captures: without captures, the whole match, if it is wanted
  method PushCaptures(src: string, caps: seq<Cap>, whole: bool, s: nat, e: nat) returns (r: Outcome<seq<Value>>)
    requires s <= e <= |src| && Fits(src, caps, e)
    ensures r == Captured(src, caps, 0, if |caps| == 0 && whole then 1 else |caps|, s, e)
  {
    hide Fits, OneCapture;
    var nlevels := if |caps| == 0 && whole then 1 else |caps|;
    var vs: seq<Value> := [];
    AfterAfter([], [], Captured(src, caps, 0, nlevels, s, e));
    for i := 0 to nlevels
      invariant Captured(src, caps, 0, nlevels, s, e) == After(vs, Captured(src, caps, i, nlevels, s, e))
    {
      var v := OneCapture(src, caps, i, s, e);
      if v.Failed? { return Failed(v.err); }
      AfterAfter(vs, [v.value], Captured(src, caps, i + 1, nlevels, s, e));
      vs := vs + [v.value];
    }
    assert vs + [] == vs;
    return Done(vs);
  }

  // ----- string.find and string.match -----

  datatype Answer = Nothing | Pushes(vs: seq<Value>) | Raises(err: Error)

  function AnswerOf(before: seq<Value>, r: Outcome<seq<Value>>): Answer {
    match r
    case Done(vs) => Pushes(before + vs)
    case Failed(err) => Raises(err)
  }

  predicate PlainAt(src: string, k: nat, p: string) {
    k + |p| <= |src| && src[k..k + |p|] == p
  }

  // memchr
  function Memchr(src: string, i: nat, n: nat, c: char): (k: int)
    requires i + n <= |src|
    ensures k == -1 || (i <= k < i + n && src[k] == c)
    ensures forall j :: i <= j < (if k == -1 then i + n else k) ==> src[j] != c
    decreases n
  {
    if n == 0 then -1 else if src[i] == c then i else Memchr(src, i + 1, n - 1, c)
  }

  // lmemfind: the first place from i on where p stands
  method LMemFind(src: string, i: nat, p: string) returns (k: int)
    requires i <= |src|
    ensures k == -1 ==> forall j :: i <= j ==> !PlainAt(src, j, p)
    ensures k != -1 ==> k >= i && PlainAt(src, k, p) && forall j :: i <= j < k ==> !PlainAt(src, j, p)
  {
    if |p| == 0 {
      return i;
    } else if |p| > |src| - i {
      return -1;
    }
    var s1 := i;
    var l2 := |p| - 1;
    var l1 := |src| - i - l2;
    while l1 > 0
      invariant i <= s1 && s1 + l1 + l2 == |src| && l1 >= 0
      invariant forall j :: i <= j < s1 ==> !PlainAt(src, j, p)
      decreases l1
    {
      var found := Memchr(src, s1, l1, p[0]);
      forall j | s1 <= j < (if found == -1 then s1 + l1 else found) ensures !PlainAt(src, j, p) {
        PlainStart(src, j, p);
      }
      if found == -1 { return -1; }
      var init := found + 1;
      PlainStart(src, found, p);
      if src[init..init + l2] == p[1..] { return found; }
      l1 := l1 - (init - s1);
      s1 := init;
    }
    return -1;
  }

  lemma PlainStart(src: string, k: nat, p: string)
    requires p != []
    ensures PlainAt(src, k, p) <==> k + |p| <= |src| && src[k] == p[0] && src[k + 1..k + |p|] == p[1..]
  {
    if k + |p| <= |src| {
      var here := src[k..k + |p|];
      assert here[0] == src[k] && here[1..] == src[k + 1..k + |p|];
      assert p == [p[0]] + p[1..] && here == [here[0]] + here[1..];
    }
  }

  // posrelat, and the bounds that str_find_aux puts on the start
  function StartAt(init: int, n: nat): (i: nat)
    ensures i <= n
  {
    var i := (if init >= 0 then init else n + init + 1) - 1;
    if i < 0 then 0 else if i > n then n else i
  }

  predicate SpecialChar(c: char) {
    c in {'^', '$', '*', '+', '?', '.', '(', '[', '%', '-'}
  }

  // strpbrk, up to the first zero
  predicate Special(p: string, i: nat)
    decreases if i < |p| then |p| - i else 0
  {
    i < |p| && p[i] != '\0' && (SpecialChar(p[i]) || Special(p, i + 1))
  }

  // The first place from i on where p stands.
  ghost predicate FindsPlain(src: string, i: nat, p: string, r: Answer) {
    if r == Nothing then forall j :: i <= j ==> !PlainAt(src, j, p)
    else
      exists k: nat ::
        k >= i && r == Pushes([Place(k + 1), Place(k + |p|)]) && PlainAt(src, k, p) &&
        forall j :: i <= j < k ==> !PlainAt(src, j, p)
  }

  // What is pushed for a hit: for string.find its place and its captures, for string.match
  // its captures, or all of it.
  ghost predicate Shows(src: string, h: Hit, find: bool, r: Answer)
    requires h.Hit?
  {
    h.start <= h.end <= |src| && Fits(src, h.caps, h.end) &&
    r == AnswerOf(if find then [Place(h.start + 1), Place(h.end)] else [],
                  Captured(src, h.caps, 0, if |h.caps| == 0 && !find then 1 else |h.caps|, h.start, h.end))
  }

  ghost predicate FindsHit(src: string, h: seq<Hit>, find: bool, r: Answer) {
    if h == [] then r == Nothing
    else if h[0].Bad? then r == Raises(h[0].err)
    else Shows(src, h[0], find, r)
  }

  // str_find_aux, the plain search
  method FindPlain(src: string, i: nat, p: string) returns (r: Answer)
    requires i <= |src|
    ensures FindsPlain(src, i, p, r)
  {
    hide PlainAt;
    var s2 := LMemFind(src, i, p);
    if s2 == -1 { return Nothing; }
    return Pushes([Place(s2 + 1), Place(s2 + |p|)]);
  }

  lemma ShowsHit(src: string, s: nat, e: nat, caps: seq<Cap>, find: bool)
    requires s <= e <= |src| && Fits(src, caps, e)
    ensures Shows(src, Hit(s, e, caps), find,
                  AnswerOf(if find then [Place(s + 1), Place(e)] else [],
                           Captured(src, caps, 0, if |caps| == 0 && !find then 1 else |caps|, s, e)))
  {
  }

  // str_find_aux
  method FindAux(ct: Ctype, src: string, pat: string, init: int, plain: bool, find: bool) returns (r: Answer)
    ensures var i := StartAt(init, |src|);
            if find && (plain || !Special(pat, 0)) then FindsPlain(src, i, pat, r)
            else
              var anchor := Ch(pat, 0) == '^';
              FindsHit(src, Search(ct, src, Items(ct, pat, if anchor then 1 else 0), i, if anchor then i else |src|),
                       find, r)
  {
    hide Results, Search, Special, FindsPlain, Shows, StartAt, Items, Fits, Captured, AnswerOf, First;
    var s1: nat := StartAt(init, |src|);
    ghost var i := s1;
    if find && (plain || !Special(pat, 0)) {
      r := FindPlain(src, s1, pat);
      return;
    }
    var anchor := Ch(pat, 0) == '^';
    var p := if anchor then 1 else 0;
    var ms := new MatchState(ct, src, pat);
    ghost var items, last := Items(ct, pat, p), if anchor then i else |src|;
    while true
      invariant ms.Valid() && fresh(ms) && fresh(ms.capture) && ms.ct == ct && ms.src == src && ms.pat == pat
      invariant s1 <= last && Search(ct, src, items, i, last) == Search(ct, src, items, s1, last)
      decreases |src| - s1
    {
      var e := ms.Begin(s1, p);
      SearchStep(ct, src, items, s1, last);
      SearchMeans(ct, src, items, s1, last);
      if e.Error? { return Raises(e.err); }
      if e.Pointer? {
        var caps := ms.Caps();
        var vs := PushCaptures(src, caps, !find, s1, e.e);
        ShowsHit(src, s1, e.e, caps, find);
        return AnswerOf(if find then [Place(s1 + 1), Place(e.e)] else [], vs);
      }
      if s1 >= |src| || anchor { return Nothing; }
      s1 := s1 + 1;
    }
  }

  lemma SearchStep(ct: Ctype, src: string, items: seq<Item>, i: nat, last: nat)
    requires i <= last
    ensures Search(ct, src, items, i, last) ==
            match First(Results(ct, src, items, i, []))
              case NotFound => Search(ct, src, items, i + 1, last)
              case Ended(e, caps) => [Hit(i, e, caps)]
              case Raised(err) => [Bad(err)]
    ensures Search(ct, src, items, last + 1, last) == []
  {
    hide Results;
  }

  // ----- string.gmatch -----

  class Gmatch {
    const ct: Ctype
    const src: string
    const pat: string
    var pos: nat

    constructor (ct: Ctype, src: string, pat: string)
      ensures this.ct == ct && this.src == src && this.pat == pat && pos == 0
    {
      this.ct, this.src, this.pat, pos := ct, src, pat, 0;
    }

    // The matches still to come.
    ghost function Rest(): seq<Hit>
      reads this
    {
      Matches(ct, src, Items(ct, pat, 0), pos)
    }

    // gmatch_aux: one match at a time
    method Next() returns (r: Answer)
      modifies this`pos
      ensures old(Rest()) == [] ==> r == Nothing && pos == old(pos)
      ensures old(Rest()) != [] ==>
                match old(Rest()[0])
                case Bad(err) => r == Raises(err)
                case Hit(_, _, _) => Shows(src, old(Rest()[0]), false, r) && pos > old(pos) &&
                                     Rest() == old(Rest()[1..])
    {
      hide Results, Search, Items, Ch, SetAt, Repeats, BalanceEnd, ToClose, Closed, Fits;
      var ms := new MatchState(ct, src, pat);
      var s: nat := pos;
      ghost var items := Items(ct, pat, 0);
      SearchMeans(ct, src, items, pos, |src|);
      SearchMisses(ct, src, items, pos);
      while s <= |src|
        invariant ms.Valid() && fresh(ms) && fresh(ms.capture) && ms.ct == ct && ms.src == src && ms.pat == pat
        invariant s >= pos == old(pos)
        invariant Search(ct, src, items, pos, |src|) == Search(ct, src, items, s, |src|)
      {
        var e := ms.Begin(s, 0);
        SearchStep(ct, src, items, s, |src|);
        if e.Error? { return Raises(e.err); }
        if e.Pointer? {
          ghost var h := Search(ct, src, items, pos, |src|)[0];
          assert h == Hit(s, e.e, ms.Caps());
          pos := if e.e == s then e.e + 1 else e.e;
          var vs := PushCaptures(src, ms.Caps(), true, s, e.e);
          assert old(Rest()) == [h] + Rest();
          return AnswerOf([], vs);
        }
        s := s + 1;
      }
      SearchMisses(ct, src, items, s);
      return Nothing;
    }
  }

  // ----- string.gsub -----

  datatype Given = Keep | Give(text: string) | Wrong

  // What replaces a match: a template, a function of its captures, or a table of its first one.
  datatype Repl = Template(news: string) | Call(f: seq<Value> -> Given) | Lookup(t: Value -> Given)

  // The text of a value, with a position written out as lua_Number2str does.
  function TextOf(tostring: int -> string, v: Value): string {
    match v
    case Text(text) => text
    case Place(i) => tostring(i)
  }

  // A template from i on: an escape and a digit stand for a capture, an escape and anything
  // else for that character.
  function Expanded(tostring: int -> string, news: string, i: nat, src: string, caps: seq<Cap>, s: nat,
      e: nat): Outcome<string>
    requires s <= e <= |src| && Fits(src, caps, e)
    decreases if i < |news| then |news| - i else 0
  {
    if i >= |news| then Done("")
    else if news[i] != ESC then After([news[i]], Expanded(tostring, news, i + 1, src, caps, s, e))
    else
      var d := Ch(news, i + 1);
      if !Digit(d) then After([d], Expanded(tostring, news, i + 2, src, caps, s, e))
      else if d == '0' then After(src[s..e], Expanded(tostring, news, i + 2, src, caps, s, e))
      else
        match OneCapture(src, caps, d as int - '1' as int, s, e)
        case Failed(err) => Failed(err)
        case Done(v) => After(TextOf(tostring, v), Expanded(tostring, news, i + 2, src, caps, s, e))
  }

  // add_s: the template, added to the buffer
  method AddS(tostring: int -> string, news: string, b0: string, src: string, caps: seq<Cap>, s: nat, e: nat)
    returns (r: Outcome<string>)
    requires s <= e <= |src| && Fits(src, caps, e)
    ensures r == After(b0, Expanded(tostring, news, 0, src, caps, s, e))
  {
    hide Fits, OneCapture;
    var b := b0;
    var i := 0;
    while i < |news|
      invariant After(b0, Expanded(tostring, news, 0, src, caps, s, e)) ==
                After(b, Expanded(tostring, news, i, src, caps, s, e))
      decreases |news| - i
    {
      ghost var was := b;
      if news[i] != ESC {
        b := b + [news[i]];
        AfterAfter(was, [news[i]], Expanded(tostring, news, i + 1, src, caps, s, e));
      } else {
        i := i + 1;
        ghost var rest := Expanded(tostring, news, i + 1, src, caps, s, e);
        var d := Ch(news, i);
        if !Digit(d) {
          b := b + [d];
          AfterAfter(was, [d], rest);
        } else if d == '0' {
          b := b + src[s..e];
          AfterAfter(was, src[s..e], rest);
        } else {
          var v := OneCapture(src, caps, d as int - '1' as int, s, e);
          if v.Failed? { return Failed(v.err); }
          b := b + TextOf(tostring, v.value);
          AfterAfter(was, TextOf(tostring, v.value), rest);
        }
      }
      i := i + 1;
    }
    assert b + "" == b;
    return Done(b);
  }

  function Chosen(src: string, s: nat, e: nat, g: Given): Outcome<string>
    requires s <= e <= |src|
  {
    match g
    case Keep => Done(src[s..e])
    case Give(text) => Done(text)
    case Wrong => Failed(InvalidReplacement)
  }

  // What a match is replaced with.
  function Replacement(tostring: int -> string, repl: Repl, src: string, caps: seq<Cap>, s: nat,
      e: nat): Outcome<string>
    requires s <= e <= |src| && Fits(src, caps, e)
  {
    match repl
    case Template(news) => Expanded(tostring, news, 0, src, caps, s, e)
    case Call(f) =>
      (match Captured(src, caps, 0, if |caps| == 0 then 1 else |caps|, s, e)
       case Failed(err) => Failed(err)
       case Done(vs) => Chosen(src, s, e, f(vs)))
    case Lookup(t) =>
      match OneCapture(src, caps, 0, s, e)
      case Failed(err) => Failed(err)
      case Done(v) => Chosen(src, s, e, t(v))
  }

  // add_value
  method AddValue(tostring: int -> string, repl: Repl, b: string, src: string, caps: seq<Cap>, s: nat, e: nat)
    returns (r: Outcome<string>)
    requires s <= e <= |src| && Fits(src, caps, e)
    ensures r == After(b, Replacement(tostring, repl, src, caps, s, e))
  {
    hide Fits, OneCapture, Captured, Expanded;
    var g: Given;
    match repl {
    case Template(news) =>
      r := AddS(tostring, news, b, src, caps, s, e);
      return;
    case Call(f) =>
      var vs := PushCaptures(src, caps, true, s, e);
      if vs.Failed? { return Failed(vs.err); }
      g := f(vs.value);
    case Lookup(t) =>
      var v := OneCapture(src, caps, 0, s, e);
      if v.Failed? { return Failed(v.err); }
      g := t(v.value);
    }
    match g
    case Keep => return Done(b + src[s..e]);
    case Give(text) => return Done(b + text);
    case Wrong => return Failed(InvalidReplacement);
  }

  // The text from i on with every hit replaced and everything between the hits kept.
  function Spliced(tostring: int -> string, repl: Repl, src: string, i: nat, hits: seq<Hit>): Outcome<string>
    requires i <= |src| && Chain(src, i, hits)
    decreases |hits|
  {
    if hits == [] then Done(src[i..])
    else
      match hits[0]
      case Bad(err) => Failed(err)
      case Hit(s, e, caps) =>
        match Replacement(tostring, repl, src, caps, s, e)
        case Failed(err) => Failed(err)
        case Done(v) => After(src[i..s] + v, Spliced(tostring, repl, src, e, hits[1..]))
  }

  function Take(hits: seq<Hit>, n: int): seq<Hit> {
    if n <= 0 then [] else if n < |hits| then hits[..n] else hits
  }

  lemma {:induction false} TakeChain(src: string, i: nat, hits: seq<Hit>, n: int)
    requires Chain(src, i, hits)
    ensures Chain(src, i, Take(hits, n))
    decreases |hits|
  {
    if n > 0 && hits != [] && hits[0].Hit? {
      TakeChain(src, hits[0].end, hits[1..], n - 1);
      assert Take(hits, n)[1..] == Take(hits[1..], n - 1);
    }
  }

  // The hits that gsub replaces: max_s of them at most, and only one that starts at the
  // beginning for a pattern that is anchored.
  function Replaced(ct: Ctype, src: string, pat: string, max_s: int): seq<Hit> {
    if Ch(pat, 0) == '^' then Take(Search(ct, src, Items(ct, pat, 1), 0, 0), max_s)
    else Take(Matches(ct, src, Items(ct, pat, 0), 0), max_s)
  }

  lemma ReplacedChain(ct: Ctype, src: string, pat: string, max_s: int)
    ensures Chain(src, 0, Replaced(ct, src, pat, max_s))
  {
    hide Matches, Search;
    if Ch(pat, 0) == '^' {
      SearchMeans(ct, src, Items(ct, pat, 1), 0, 0);
      TakeChain(src, 0, Search(ct, src, Items(ct, pat, 1), 0, 0), max_s);
    } else {
      MatchesChain(ct, src, Items(ct, pat, 0), 0, 0);
      TakeChain(src, 0, Matches(ct, src, Items(ct, pat, 0), 0), max_s);
    }
  }

  // A character before the first hit is kept.
  lemma SplicedKeeps(tostring: int -> string, repl: Repl, src: string, i: nat, hits: seq<Hit>)
    requires i < |src| && Chain(src, i + 1, hits)
    ensures Chain(src, i, hits)
    ensures Spliced(tostring, repl, src, i, hits) == After([src[i]], Spliced(tostring, repl, src, i + 1, hits))
  {
    hide Replacement;
    if hits == [] {
      assert src[i..] == [src[i]] + src[i + 1..];
    } else if hits[0].Hit? {
      var s, e := hits[0].start, hits[0].end;
      assert src[i..s] == [src[i]] + src[i + 1..s];
      var v := Replacement(tostring, repl, src, hits[0].caps, s, e);
      if v.Done? {
        assert src[i..s] + v.value == [src[i]] + (src[i + 1..s] + v.value);
        AfterAfter([src[i]], src[i + 1..s] + v.value, Spliced(tostring, repl, src, e, hits[1..]));
      }
    }
  }

  // The hits after a step to j: none for a pattern that is anchored.
  function Later(ct: Ctype, src: string, items: seq<Item>, anchor: bool, j: nat): seq<Hit> {
    if anchor then [] else Matches(ct, src, items, j)
  }

  function HitsFrom(ct: Ctype, src: string, items: seq<Item>, anchor: bool, i: nat): seq<Hit> {
    if anchor then Search(ct, src, items, i, i) else Matches(ct, src, items, i)
  }

  lemma HitsStep(ct: Ctype, src: string, items: seq<Item>, anchor: bool, i: nat)
    requires i <= |src|
    ensures var hits := HitsFrom(ct, src, items, anchor, i);
            match First(Results(ct, src, items, i, []))
            case NotFound => hits == Later(ct, src, items, anchor, i + 1)
            case Ended(e, caps) =>
              && i <= e <= |src| && Fits(src, caps, e)
              && hits == [Hit(i, e, caps)] + Later(ct, src, items, anchor, if e > i then e else i + 1)
            case Raised(err) => hits == [Bad(err)]
  {
    hide Results, Fits, Search;
    var last := if anchor then i else |src|;
    SearchMeans(ct, src, items, i, last);
    SearchMeans(ct, src, items, i + 1, last);
    SearchStep(ct, src, items, i, last);
  }

  lemma LaterChain(ct: Ctype, src: string, items: seq<Item>, anchor: bool, j: nat, i: nat, n: int)
    requires i <= j
    ensures Chain(src, i, Take(Later(ct, src, items, anchor, j), n))
    ensures j > |src| ==> Later(ct, src, items, anchor, j) == []
  {
    hide Search;
    MatchesChain(ct, src, items, j, i);
    TakeChain(src, i, Later(ct, src, items, anchor, j), n);
    SearchMisses(ct, src, items, j);
  }

  // A hit that starts here is replaced.
  lemma SplicedHit(tostring: int -> string, repl: Repl, src: string, i: nat, e: nat, caps: seq<Cap>, rest: seq<Hit>)
    requires i <= e <= |src| && Fits(src, caps, e) && Chain(src, e, rest)
    ensures Chain(src, i, [Hit(i, e, caps)] + rest)
    ensures Spliced(tostring, repl, src, i, [Hit(i, e, caps)] + rest) ==
            match Replacement(tostring, repl, src, caps, i, e)
            case Failed(err) => Failed(err)
            case Done(v) => After(v, Spliced(tostring, repl, src, e, rest))
  {
    hide Replacement, Fits;
    assert ([Hit(i, e, caps)] + rest)[1..] == rest;
    assert src[i..i] == "";
    var v := Replacement(tostring, repl, src, caps, i, e);
    if v.Done? { assert "" + v.value == v.value; }
  }

  lemma TakeCons(h: Hit, rest: seq<Hit>, n: int)
    ensures n > 0 ==> Take([h] + rest, n) == [h] + Take(rest, n - 1)
  {
  }

  // One round of gsub: the hits that are left, and the text they leave.
  lemma GsubStep(ct: Ctype, tostring: int -> string, repl: Repl, src: string, items: seq<Item>, anchor: bool, i: nat,
      k: int)
    requires i <= |src| && k > 0
    ensures var todo := Take(HitsFrom(ct, src, items, anchor, i), k);
            Chain(src, i, todo) &&
            match First(Results(ct, src, items, i, []))
            case NotFound =>
              if i < |src|
              then todo == Take(Later(ct, src, items, anchor, i + 1), k) && Chain(src, i + 1, todo) &&
                   Spliced(tostring, repl, src, i, todo) == After([src[i]], Spliced(tostring, repl, src, i + 1, todo))
              else todo == []
            case Raised(err) => Spliced(tostring, repl, src, i, todo) == Failed(err)
            case Ended(e, caps) =>
              i <= e <= |src| && Fits(src, caps, e) &&
              var rest := Take(Later(ct, src, items, anchor, if e > i then e else i + 1), k - 1);
              todo == [Hit(i, e, caps)] + rest && Chain(src, e, rest) &&
              (Spliced(tostring, repl, src, i, todo) ==
               match Replacement(tostring, repl, src, caps, i, e)
               case Failed(err) => Failed(err)
               case Done(v) => After(v, Spliced(tostring, repl, src, e, rest))) &&
              (e == i == |src| ==> rest == []) &&
              (e == i < |src| ==> Chain(src, i + 1, rest)) &&
              (e == i < |src| ==>
                 Spliced(tostring, repl, src, i, rest) == After([src[i]], Spliced(tostring, repl, src, i + 1, rest)))
  {
    hide Results, Search, Matches, Replacement, Fits, HitsFrom, Later;
    HitsStep(ct, src, items, anchor, i);
    match First(Results(ct, src, items, i, []))
    case NotFound =>
      LaterChain(ct, src, items, anchor, i + 1, i, k);
      LaterChain(ct, src, items, anchor, i + 1, i + 1, k);
      if i < |src| { SplicedKeeps(tostring, repl, src, i, Take(Later(ct, src, items, anchor, i + 1), k)); }
    case Raised(err) =>
    case Ended(e, caps) =>
      var j := if e > i then e else i + 1;
      var rest := Take(Later(ct, src, items, anchor, j), k - 1);
      TakeCons(Hit(i, e, caps), Later(ct, src, items, anchor, j), k);
      LaterChain(ct, src, items, anchor, j, e, k - 1);
      LaterChain(ct, src, items, anchor, j, j, k - 1);
      SplicedHit(tostring, repl, src, i, e, caps, rest);
      if e == i < |src| { SplicedKeeps(tostring, repl, src, i, rest); }
  }

  lemma SplicedNone(tostring: int -> string, repl: Repl, src: string, i: nat)
    requires i <= |src|
    ensures Chain(src, i, []) && Spliced(tostring, repl, src, i, []) == Done(src[i..])
  {
  }

  // Text added to a buffer, in front of the rest.
  lemma Grown(b: string, x: Outcome<string>, rest: Outcome<string>)
    ensures x.Failed? ==> After(b, x) == x
    ensures rest.Failed? ==> After(b, rest) == rest
    ensures rest.Done? ==> After(b, rest) == Done(b + rest.value)
    ensures x.Done? ==> After(b, x) == Done(b + x.value) && After(b, After(x.value, rest)) == After(b + x.value, rest)
  {
    if x.Done? { AfterAfter(b, x.value, rest); }
  }

  // The whole outcome, when b is built at i and the hits in todo are left.
  ghost predicate Underway(tostring: int -> string, repl: Repl, src: string, whole: Outcome<string>, b: string, i: nat,
      todo: seq<Hit>)
  {
    i <= |src| && Chain(src, i, todo) && whole == After(b, Spliced(tostring, repl, src, i, todo))
  }

  // The hits left at j: none for a pattern that is anchored.
  ghost predicate Remain(ct: Ctype, src: string, items: seq<Item>, anchor: bool, j: nat, k: int, todo: seq<Hit>) {
    if anchor then todo == [] else todo == Take(HitsFrom(ct, src, items, anchor, j), k)
  }

  lemma GsubNext(ct: Ctype, tostring: int -> string, repl: Repl, src: string, items: seq<Item>, anchor: bool, i: nat,
      k: int, whole: Outcome<string>, b: string)
    requires k > 0 && Underway(tostring, repl, src, whole, b, i, Take(HitsFrom(ct, src, items, anchor, i), k))
    ensures var todo := Take(HitsFrom(ct, src, items, anchor, i), k);
            match First(Results(ct, src, items, i, []))
            case NotFound =>
              if i < |src|
              then Remain(ct, src, items, anchor, i + 1, k, todo) &&
                   Underway(tostring, repl, src, whole, b + [src[i]], i + 1, todo)
              else todo == []
            case Raised(err) => whole == Failed(err)
            case Ended(e, caps) =>
              i <= e <= |src| && Fits(src, caps, e) && todo != [] &&
              match Replacement(tostring, repl, src, caps, i, e)
              case Failed(err) => whole == Failed(err)
              case Done(v) =>
                var rest := todo[1..];
                Remain(ct, src, items, anchor, if e > i then e else i + 1, k - 1, rest) &&
                if e > i then Underway(tostring, repl, src, whole, b + v, e, rest)
                else if i < |src| then Underway(tostring, repl, src, whole, b + v + [src[i]], i + 1, rest)
                else rest == [] && Underway(tostring, repl, src, whole, b + v, i, [])
  {
    hide Results, Replacement, Fits, HitsFrom, Later, Spliced, Chain, After, Take;
    var todo := Take(HitsFrom(ct, src, items, anchor, i), k);
    GsubStep(ct, tostring, repl, src, items, anchor, i, k);
    Grown(b, Failed(InvalidIndex), Spliced(tostring, repl, src, i, todo));
    match First(Results(ct, src, items, i, []))
    case NotFound =>
      HitsAre(ct, src, items, anchor, i + 1, k);
      if i < |src| { Grown(b, Done([src[i]]), Spliced(tostring, repl, src, i + 1, todo)); }
    case Raised(err) =>
    case Ended(e, caps) =>
      var x := Replacement(tostring, repl, src, caps, i, e);
      var rest := Take(Later(ct, src, items, anchor, if e > i then e else i + 1), k - 1);
      assert todo[1..] == rest;
      HitsAre(ct, src, items, anchor, if e > i then e else i + 1, k - 1);
      Grown(b, x, Spliced(tostring, repl, src, e, rest));
      if x.Done? && e == i < |src| {
        Grown(b + x.value, Done([src[i]]), Spliced(tostring, repl, src, i + 1, rest));
      }
  }

  lemma GsubDone(tostring: int -> string, repl: Repl, src: string, whole: Outcome<string>, b: string, i: nat)
    requires Underway(tostring, repl, src, whole, b, i, [])
    ensures whole == Done(b + src[i..])
  {
    hide After, Spliced, Chain;
    SplicedNone(tostring, repl, src, i);
    Grown(b, Done(""), Spliced(tostring, repl, src, i, []));
  }

  lemma HitsAre(ct: Ctype, src: string, items: seq<Item>, anchor: bool, i: nat, n: int)
    ensures anchor || n <= 0 ==> Take(Later(ct, src, items, anchor, i), n) == []
    ensures n <= 0 ==> Take(HitsFrom(ct, src, items, anchor, i), n) == []
    ensures !anchor ==> Later(ct, src, items, anchor, i) == HitsFrom(ct, src, items, anchor, i)
  {
  }

  // str_gsub
  method Gsub(ct: Ctype, tostring: int -> string, src: string, pat: string, repl: Repl, max_s: int)
    returns (r: Outcome<string>, n: nat)
    ensures Chain(src, 0, Replaced(ct, src, pat, max_s))
    ensures r == Spliced(tostring, repl, src, 0, Replaced(ct, src, pat, max_s))
    ensures r.Done? ==> n == |Replaced(ct, src, pat, max_s)|
  {
    hide Results, Search, Matches, Replacement, Spliced, Fits, Chain, After, HitsFrom, Later, Items, Replaced, Take,
      Underway;
    var anchor := Ch(pat, 0) == '^';
    var p := if anchor then 1 else 0;
    ghost var items := Items(ct, pat, p);
    var i: nat := 0;
    var b := "";
    n := 0;
    var ms := new MatchState(ct, src, pat);
    ghost var hits := Replaced(ct, src, pat, max_s);
    GsubBegins(ct, tostring, repl, src, pat, max_s);
    ghost var todo, whole := hits, Spliced(tostring, repl, src, 0, hits);
    while n < max_s
      invariant ms.Valid() && fresh(ms) && fresh(ms.capture) && ms.ct == ct && ms.src == src && ms.pat == pat
      invariant n + |todo| == |hits| && Underway(tostring, repl, src, whole, b, i, todo)
      invariant todo == Take(HitsFrom(ct, src, items, anchor, i), max_s - n) && i <= |src|
      decreases |src| - i
    {
      var e := ms.Begin(i, p);
      GsubNext(ct, tostring, repl, src, items, anchor, i, max_s - n, whole, b);
      if e.Error? { return Failed(e.err), n; }
      if e.Pointer? {
        n := n + 1;
        var v := AddValue(tostring, repl, b, src, ms.Caps(), i, e.e);
        Grown(b, Replacement(tostring, repl, src, ms.Caps(), i, e.e), Done(""));
        if v.Failed? { return Failed(v.err), n; }
        b := v.value;
        todo := todo[1..];
      }
      if e.Pointer? && e.e > i {
        i := e.e;
      } else if i < |src| {
        b := b + [src[i]];
        i := i + 1;
      } else {
        break;
      }
      if anchor {
        break;
      }
    }
    HitsAre(ct, src, items, anchor, i, max_s - n);
    GsubDone(tostring, repl, src, whole, b, i);
    return Done(b + src[i..]), n;
  }

  lemma GsubBegins(ct: Ctype, tostring: int -> string, repl: Repl, src: string, pat: string, max_s: int)
    ensures var anchor := Ch(pat, 0) == '^';
            var hits := Take(HitsFrom(ct, src, Items(ct, pat, if anchor then 1 else 0), anchor, 0), max_s);
            hits == Replaced(ct, src, pat, max_s) && Chain(src, 0, hits) &&
            Underway(tostring, repl, src, Spliced(tostring, repl, src, 0, hits), "", 0, hits)
  {
    hide Search, Matches, Items, Spliced, Chain, Take;
    ReplacedChain(ct, src, pat, max_s);
    AfterAfter([], [], Spliced(tostring, repl, src, 0, Replaced(ct, src, pat, max_s)));
  }

  // Replacing every match with itself gives the text back.
  lemma {:induction false} SplicedSame(tostring: int -> string, src: string, i: nat, hits: seq<Hit>)
    requires i <= |src| && Chain(src, i, hits)
    requires forall h :: h in hits ==> h.Hit?
    ensures Spliced(tostring, Template("%0"), src, i, hits) == Done(src[i..])
    decreases |hits|
  {
    if hits != [] {
      var h := hits[0];
      assert h in hits;
      assert forall k :: k in hits[1..] ==> k in hits;
      SplicedSame(tostring, src, h.end, hits[1..]);
      WholeMatch(tostring, src, h.caps, h.start, h.end);
      assert src[i..] == src[i..h.start] + src[h.start..h.end] + src[h.end..];
    }
  }

  lemma WholeMatch(tostring: int -> string, src: string, caps: seq<Cap>, s: nat, e: nat)
    requires s <= e <= |src| && Fits(src, caps, e)
    ensures Expanded(tostring, "%0", 0, src, caps, s, e) == Done(src[s..e])
  {
    assert Expanded(tostring, "%0", 2, src, caps, s, e) == Done("");
    assert src[s..e] + "" == src[s..e];
  }

  // ----- the plain search -----

  // What a search for p as it stands finds at s.
  function Plainly(src: string, s: nat, p: string): seq<Found> {
    if PlainAt(src, s, p) then [Ended(s + |p|, [])] else []
  }

  // string.find leaves the matcher out for a pattern without special characters; that finds
  // the same in every text exactly if the pattern has no `)' and no zero either.
  lemma PlainSearch(ct: Ctype, p: string)
    requires !Special(p, 0)
    ensures (forall src: string, s: nat | s <= |src| ::
             Results(ct, src, Items(ct, p, 0), s, []) == Plainly(src, s, p)) <==>
            ')' !in p && '\0' !in p
  {
    hide Results, Items, Special;
    var k := Stop(p, 0);
    if k == |p| {
      forall src: string, s: nat | s <= |src| ensures Results(ct, src, Items(ct, p, 0), s, []) == Plainly(src, s, p) {
        PlainUntil(ct, src, p, 0, s);
        assert p[0..k] == p;
      }
    } else {
      var src := if p[k] == ')' then p else p[..k];
      PlainUntil(ct, src, p, 0, 0);
      assert src[0..k] == p[0..k];
      assert src[0..|src|] == src;
      assert Results(ct, src, Items(ct, p, 0), 0, []) != Plainly(src, 0, p);
    }
  }

  // Where a pattern without special characters stops to stand for itself.
  function Stop(p: string, i: nat): (k: nat)
    requires i <= |p|
    ensures i <= k <= |p|
    ensures forall j :: i <= j < k ==> p[j] != ')' && p[j] != '\0'
    ensures k < |p| ==> p[k] == ')' || p[k] == '\0'
    decreases |p| - i
  {
    if i == |p| || p[i] == ')' || p[i] == '\0' then i else Stop(p, i + 1)
  }

  lemma {:induction false} PlainUntil(ct: Ctype, src: string, p: string, i: nat, s: nat)
    requires i <= |p| && s <= |src| && !Special(p, i)
    ensures var k := Stop(p, i);
            Results(ct, src, Items(ct, p, i), s, []) ==
            if !PlainAt(src, s, p[i..k]) then []
            else if k < |p| && p[k] == ')' then [Raised(NoCaptureToClose)]
            else [Ended(s + (k - i), [])]
    decreases |p| - i
  {
    hide Results, Items, Special, Stop;
    StopStep(p, i);
    var k := Stop(p, i);
    if i < k {
      PlainOne(ct, p, i);
      PlainFirst(ct, src, p[i], Items(ct, p, i + 1), s);
      PlainStart(src, s, p[i..k]);
      assert p[i..k][1..] == p[i + 1..k];
      if s < |src| {
        PlainUntil(ct, src, p, i + 1, s + 1);
      }
    } else {
      PlainStops(ct, src, p, i, s);
    }
  }

  lemma StopStep(p: string, i: nat)
    requires i <= |p|
    ensures i < Stop(p, i) ==> Stop(p, i) == Stop(p, i + 1)
  {
  }

  lemma PlainFirst(ct: Ctype, src: string, c: char, rest: seq<Item>, s: nat)
    ensures Results(ct, src, [One(Literal(c))] + rest, s, []) ==
            if s < |src| && src[s] == c then Results(ct, src, rest, s + 1, []) else []
  {
    hide Results;
    ResultsCons(ct, src, One(Literal(c)), rest, s, []);
  }

  lemma PlainStops(ct: Ctype, src: string, p: string, i: nat, s: nat)
    requires i <= |p| && i == Stop(p, i) && s <= |src|
    ensures PlainAt(src, s, p[i..i])
    ensures Results(ct, src, Items(ct, p, i), s, []) ==
            if i < |p| && p[i] == ')' then [Raised(NoCaptureToClose)] else [Ended(s, [])]
  {
    assert src[s..s] == p[i..i];
    if i < |p| && p[i] == ')' { ResultsCons(ct, src, CloseCap, Items(ct, p, i + 1), s, []); }
  }

  lemma PlainOne(ct: Ctype, p: string, i: nat)
    requires i < |p| && !Special(p, i) && p[i] != ')' && p[i] != '\0'
    ensures Items(ct, p, i) == [One(Literal(p[i]))] + Items(ct, p, i + 1) && !Special(p, i + 1)
  {
    hide Items;
    assert !SpecialChar(p[i]) && (i + 1 < |p| && p[i + 1] != '\0' ==> !SpecialChar(p[i + 1]));
    assert PatternItems.ClassEnd(p, i) == At(i + 1) && SetAt(p, i, i + 1) == Literal(p[i]);
    ItemsLiteral(ct, p, i);
  }

  lemma ItemsLiteral(ct: Ctype, p: string, i: nat)
    requires Plain(ct, p, i) && PatternItems.ClassEnd(p, i) == At(i + 1) && Ch(p, i + 1) !in {'?', '*', '+', '-'}
    ensures Items(ct, p, i) == [One(SetAt(p, i, i + 1))] + Items(ct, p, i + 1)
  {
    hide PatternItems.ClassEnd, SetAt, BracketAt;
  }
}
