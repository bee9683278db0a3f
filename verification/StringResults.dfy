// What the string functions answer, said without the code: where a search starts, which
// matches a run has, what is pushed for a match and what replaces it.

module StringResults {
  import opened PatternItems
  import opened PatternMeaning
  import opened StringSearch

  function Min(a: int, b: int): int {
    if a <= b then a else b
  }

  // A positive start counts from the front, a negative one from the end.
  lemma StartCounts(src: string, init: int)
    ensures init > 0 ==> |src[..StartAt(init, |src|)]| == Min(init - 1, |src|)
    ensures init == 0 ==> StartAt(init, |src|) == 0
    ensures init < 0 ==> |src[StartAt(init, |src|)..]| == Min(-init, |src|)
  {
  }

  // The values pushed are the captures from i to n, or the error of the first bad one.
  lemma {:induction false} CapturedAre(src: string, caps: seq<Cap>, i: nat, n: nat, s: nat, e: nat)
    requires s <= e <= |src| && Fits(src, caps, e) && i <= n
    ensures match Captured(src, caps, i, n, s, e)
            case Done(vs) =>
              |vs| == n - i && forall k :: i <= k < n ==> OneCapture(src, caps, k, s, e) == Done(vs[k - i])
            case Failed(err) =>
              exists k :: i <= k < n && OneCapture(src, caps, k, s, e) == Failed(err) &&
                forall j :: i <= j < k ==> OneCapture(src, caps, j, s, e).Done?
    decreases n - i
  {
    hide OneCapture, Fits;
    if i < n { CapturedAre(src, caps, i + 1, n, s, e); }
  }

  // string.find answers the places of the first and the last character, counted from 1.
  lemma FoundPlaces(src: string, h: Hit, r: Answer)
    requires h.Hit? && Shows(src, h, true, r) && r.Pushes?
    ensures |r.vs| == 2 + |h.caps| && r.vs[0] == Place(|src[..h.start]| + 1) && r.vs[1] == Place(|src[..h.end]|)
  {
    CapturedAre(src, h.caps, 0, |h.caps|, h.start, h.end);
  }

  // string.match answers the whole match if there is no capture.
  lemma MatchedText(src: string, h: Hit, r: Answer)
    requires h.Hit? && Shows(src, h, false, r) && r.Pushes?
    ensures if h.caps == [] then r.vs == [Text(src[h.start..h.end])] else |r.vs| == |h.caps|
  {
    CapturedAre(src, h.caps, 0, if |h.caps| == 0 then 1 else |h.caps|, h.start, h.end);
  }

  // ----- no match is passed over -----

  // Where the search goes on after a match: at its end, or one further if it was empty.
  function Next(h: Hit): nat {
    match h
    case Hit(s, e, _) => if e > s then e else s + 1
    case Bad(_) => 0
  }

  function From(hits: seq<Hit>, i: nat, k: nat): nat
    requires k <= |hits|
  {
    if k == 0 then i else Next(hits[k - 1])
  }

  // h is a match, and there is none from j on before it.
  ghost predicate NextMatch(ct: Ctype, src: string, items: seq<Item>, j: nat, h: Hit) {
    h.Hit? && j <= h.start <= h.end <= |src| && Derives(ct, src, items, h.start, [], h.end, h.caps) &&
    forall n :: j <= n < h.start ==> Never(ct, src, items, n)
  }

  // Each of the hits is the first match there is after the one before, but for an error at
  // the end; without an error, there is no match after the last.
  ghost predicate Complete(ct: Ctype, src: string, items: seq<Item>, i: nat, hits: seq<Hit>) {
    && (forall k :: 0 <= k < |hits| ==>
          NextMatch(ct, src, items, From(hits, i, k), hits[k]) || (hits[k].Bad? && k == |hits| - 1))
    && (hits == [] || hits[|hits| - 1].Hit? ==>
          forall n :: From(hits, i, |hits|) <= n <= |src| ==> Never(ct, src, items, n))
  }

  lemma OneMoreHit(ct: Ctype, src: string, items: seq<Item>, i: nat, h: Hit, rest: seq<Hit>)
    requires NextMatch(ct, src, items, i, h) && Complete(ct, src, items, Next(h), rest)
    ensures Complete(ct, src, items, i, [h] + rest)
  {
    hide NextMatch, Never;
    var hits := [h] + rest;
    forall k | 0 <= k < |hits|
      ensures NextMatch(ct, src, items, From(hits, i, k), hits[k]) || (hits[k].Bad? && k == |hits| - 1)
    {
      if k > 0 { assert hits[k] == rest[k - 1] && From(hits, i, k) == From(rest, Next(h), k - 1); }
    }
    assert From(hits, i, |hits|) == From(rest, Next(h), |rest|);
  }

  lemma {:induction false} NonePassedOver(ct: Ctype, src: string, items: seq<Item>, i: nat)
    ensures Complete(ct, src, items, i, Matches(ct, src, items, i))
    decreases |src| + 1 - i
  {
    hide Search, Never, Derives, Fits;
    SearchMeans(ct, src, items, i, |src|);
    var h := Search(ct, src, items, i, |src|);
    if h != [] && h[0].Hit? {
      NonePassedOver(ct, src, items, Next(h[0]));
      OneMoreHit(ct, src, items, i, h[0], Matches(ct, src, items, Next(h[0])));
      assert h == [h[0]];
    }
  }

  // ----- templates -----

  // What a template is made of: characters, captures (0 is the whole match), and characters
  // after an escape.
  datatype Piece = Char(c: char) | Capture(k: nat) | Escape(c: char)

  predicate PlainPiece(x: Piece) {
    match x
    case Char(c) => c != '%'
    case Capture(k) => k <= 9
    case Escape(c) => !Digit(c)
  }

  function Written(ps: seq<Piece>): string
    requires forall x :: x in ps ==> PlainPiece(x)
  {
    if ps == [] then ""
    else
      var x := ps[0];
      assert x in ps && PlainPiece(x);
      (match x
       case Char(c) => [c]
       case Capture(k) => ['%', ('0' as int + k) as char]
       case Escape(c) => ['%', c]) + Written(ps[1..])
  }

  function Filled(tostring: int -> string, ps: seq<Piece>, src: string, caps: seq<Cap>, s: nat, e: nat): Outcome<string>
    requires s <= e <= |src| && Fits(src, caps, e)
  {
    if ps == [] then Done("")
    else
      var rest := Filled(tostring, ps[1..], src, caps, s, e);
      match ps[0]
      case Char(c) => After([c], rest)
      case Escape(c) => After([c], rest)
      case Capture(k) =>
        if k == 0 then After(src[s..e], rest)
        else
          match OneCapture(src, caps, k - 1, s, e)
          case Failed(err) => Failed(err)
          case Done(Text(t)) => After(t, rest)
          case Done(Place(i)) => After(tostring(i), rest)
  }

  // gsub fills in a template as it was written.
  lemma {:induction false} TemplateFilled(tostring: int -> string, ps: seq<Piece>, news: string, i: nat, src: string,
      caps: seq<Cap>, s: nat, e: nat)
    requires s <= e <= |src| && Fits(src, caps, e) && forall x :: x in ps ==> PlainPiece(x)
    requires i <= |news| && news[i..] == Written(ps)
    ensures Expanded(tostring, news, i, src, caps, s, e) == Filled(tostring, ps, src, caps, s, e)
    decreases |ps|
  {
    hide OneCapture, Fits;
    if ps == [] {
      assert |news[i..]| == 0;
    } else {
      var n := if ps[0].Char? then 1 else 2;
      assert ps[0] in ps;
      assert news[i] == Written(ps)[0] && (n == 2 ==> news[i + 1] == Written(ps)[1]);
      assert news[i + n..] == Written(ps)[n..] == Written(ps[1..]);
      TemplateFilled(tostring, ps[1..], news, i + n, src, caps, s, e);
    }
  }

  // A function or a table gets the captures and gives the text, or false to keep the match.
  lemma CallReplaces(tostring: int -> string, f: seq<Value> -> Given, src: string, caps: seq<Cap>, s: nat, e: nat)
    requires s <= e <= |src| && Fits(src, caps, e)
    ensures var n := if caps == [] then 1 else |caps|;
            (forall k :: 0 <= k < n ==> OneCapture(src, caps, k, s, e).Done?) ==>
              exists vs: seq<Value> :: |vs| == n &&
                (forall k :: 0 <= k < n ==> OneCapture(src, caps, k, s, e) == Done(vs[k])) &&
                Replacement(tostring, Call(f), src, caps, s, e) ==
                if f(vs).Keep? then Done(src[s..e]) else if f(vs).Give? then Done(f(vs).text)
                else Failed(InvalidReplacement)
  {
    hide OneCapture, Fits;
    CapturedAre(src, caps, 0, if caps == [] then 1 else |caps|, s, e);
  }
}
