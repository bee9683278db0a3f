// What a pattern means: which ends and captures it allows, and in which order they are
// preferred.

module PatternMeaning {
  import opened PatternItems

  const MAXCAPTURES: nat := 32
  const CAP_UNFINISHED: int := -1
  const CAP_POSITION: int := -2

  datatype Cap = Cap(init: nat, len: int)

  // The last capture still open, or -1.
  function ToClose(caps: seq<Cap>): (l: int)
    ensures -1 <= l < |caps|
    ensures l >= 0 ==> caps[l].len == CAP_UNFINISHED
    ensures forall k :: l < k < |caps| ==> caps[k].len != CAP_UNFINISHED
  {
    if caps == [] then -1
    else if caps[|caps| - 1].len == CAP_UNFINISHED then |caps| - 1
    else ToClose(caps[..|caps| - 1])
  }

  function Closed(caps: seq<Cap>, l: nat, s: nat): seq<Cap>
    requires l < |caps|
  {
    caps[l := Cap(caps[l].init, s - caps[l].init)]
  }

  // The capture that `%1' to `%9' refer to, or -1.
  function Referred(caps: seq<Cap>, l: char): (k: int)
    ensures -1 <= k < |caps|
  {
    var k := l as int - '1' as int;
    if k < 0 || k >= |caps| || caps[k].len == CAP_UNFINISHED then -1 else k
  }

  // The text of a capture stands again at s; never for a position capture.
  predicate Repeats(src: string, s: nat, c: Cap) {
    0 <= c.len && s + c.len <= |src| && c.init + c.len <= |src| && src[s..s + c.len] == src[c.init..c.init + c.len]
  }

  // ----- balanced strings -----

  // The end of the text that closes `cont' openings, from i on, or -1.
  function Scan(src: string, i: nat, b: char, e: char, cont: nat): (t: int)
    ensures t == -1 || i < t <= |src|
    decreases |src| - i
  {
    if i >= |src| then -1
    else if src[i] == e then (if cont <= 1 then i + 1 else Scan(src, i + 1, b, e, cont - 1))
    else if src[i] == b then Scan(src, i + 1, b, e, cont + 1)
    else Scan(src, i + 1, b, e, cont)
  }

  function BalanceEnd(src: string, s: nat, b: char, e: char): (t: int)
    ensures t == -1 || s < t <= |src|
  {
    if s < |src| && src[s] == b then Scan(src, s + 1, b, e, 1) else -1
  }

  // Openings less closings; a character that is both closes, but for the first one.
  function Depth(src: string, s: nat, i: nat, b: char, e: char): int
    requires s <= i <= |src|
    decreases i - s
  {
    if i == s then 0
    else
      Depth(src, s, i - 1, b, e) +
      if i - 1 == s then 1 else if src[i - 1] == e then -1 else if src[i - 1] == b then 1 else 0
  }

  lemma {:induction false} ScanIs(src: string, s: nat, i: nat, b: char, e: char, cont: nat, t: nat)
    requires s < i <= |src| && cont == Depth(src, s, i, b, e) && cont >= 1
    ensures Scan(src, i, b, e, cont) == t <==>
            i < t <= |src| && Depth(src, s, t, b, e) == 0 && forall j :: i <= j < t ==> Depth(src, s, j, b, e) > 0
    decreases |src| - i
  {
    if i < |src| {
      var d := Depth(src, s, i + 1, b, e);
      assert d == cont + if src[i] == e then -1 else if src[i] == b then 1 else 0;
      assert Scan(src, i, b, e, cont) == if d == 0 then i + 1 else Scan(src, i + 1, b, e, d);
      assert d >= 0 && Depth(src, s, i, b, e) > 0;
      if d > 0 {
        ScanIs(src, s, i + 1, b, e, d, t);
        assert t <= |src| && (forall j :: i + 1 <= j < t ==> Depth(src, s, j, b, e) > 0) ==>
                 (forall j :: i <= j < t ==> Depth(src, s, j, b, e) > 0);
      } else {
        assert d == 0 && Depth(src, s, i + 1, b, e) == 0;
        if i + 1 < t <= |src| { assert !(Depth(src, s, i + 1, b, e) > 0); }
      }
    }
  }

  // A balanced text ends where the depth first comes back to nothing.
  lemma BalanceIs(src: string, s: nat, b: char, e: char, t: nat)
    ensures BalanceEnd(src, s, b, e) == t <==>
            s < t <= |src| && src[s] == b && Depth(src, s, t, b, e) == 0 && forall j :: s < j < t ==>
              Depth(src, s, j, b, e) > 0
  {
    if s < |src| && src[s] == b {
      assert Depth(src, s, s + 1, b, e) == 1;
      ScanIs(src, s, s + 1, b, e, 1, t);
    }
  }

  predicate AtFrontier(ct: Ctype, src: string, s: nat, set': Set) {
    var previous := if s == 0 then '\0' else Ch(src, s - 1);
    !InSet(ct, previous, set') && InSet(ct, Ch(src, s), set')
  }

  // ----- all matches, the preferred ones first -----

  datatype Found = NotFound | Ended(e: nat, caps: seq<Cap>) | Raised(err: Error)

  predicate Takes(ct: Ctype, src: string, s: nat, set': Set) {
    s < |src| && InSet(ct, src[s], set')
  }

  // How many characters from s on are in the set.
  function Longest(ct: Ctype, src: string, s: nat, set': Set): (n: nat)
    ensures s <= |src| ==> s + n <= |src|
    ensures forall k :: s <= k < s + n ==> Takes(ct, src, k, set')
    ensures !Takes(ct, src, s + n, set')
    decreases |src| - s
  {
    if Takes(ct, src, s, set') then 1 + Longest(ct, src, s + 1, set') else 0
  }

  function Results(ct: Ctype, src: string, items: seq<Item>, s: nat, caps: seq<Cap>): seq<Found>
    decreases |items|, 0, 0
  {
    if items == [] then [Ended(s, caps)] else ResultsOf(ct, src, items[0], items[1..], s, caps)
  }

  // One item, and then the rest.
  function ResultsOf(ct: Ctype, src: string, item: Item, rest: seq<Item>, s: nat, caps: seq<Cap>): seq<Found>
    decreases |rest|, 2, 0
  {
    match item
    case One(c) => if Takes(ct, src, s, c) then Results(ct, src, rest, s + 1, caps) else []
    case Opt(c) =>
      (if Takes(ct, src, s, c) then Results(ct, src, rest, s + 1, caps) else []) + Results(ct, src, rest, s, caps)
    case Star(c) => Down(ct, src, rest, s, Longest(ct, src, s, c), caps)
    case Plus(c) => if Takes(ct, src, s, c) then Down(ct, src, rest, s + 1, Longest(ct, src, s + 1, c), caps) else []
    case Minus(c) => Up(ct, src, rest, c, s, caps)
    case OpenCap(position) =>
      if |caps| >= MAXCAPTURES then [Raised(TooManyCaptures)]
      else Results(ct, src, rest, s, caps + [Cap(s, if position then CAP_POSITION else CAP_UNFINISHED)])
    case CloseCap =>
      var l := ToClose(caps);
      if l < 0 then [Raised(NoCaptureToClose)] else Results(ct, src, rest, s, Closed(caps, l, s))
    case Balance(b, e) =>
      var t := BalanceEnd(src, s, b, e);
      if t < 0 then [] else Results(ct, src, rest, t, caps)
    case Frontier(c) => if AtFrontier(ct, src, s, c) then Results(ct, src, rest, s, caps) else []
    case Back(l) =>
      var k := Referred(caps, l);
      if k < 0 then [Raised(InvalidIndex)]
      else if Repeats(src, s, caps[k]) then Results(ct, src, rest, s + caps[k].len, caps) else []
    case AtEnd => if s == |src| then Results(ct, src, rest, s, caps) else []
    case Broken(err) => [Raised(err)]
  }

  lemma ResultsCons(ct: Ctype, src: string, item: Item, rest: seq<Item>, s: nat, caps: seq<Cap>)
    ensures Results(ct, src, [item] + rest, s, caps) == ResultsOf(ct, src, item, rest, s, caps)
  {
    assert ([item] + rest)[1..] == rest;
  }

  // n repetitions first, then fewer.
  function Down(ct: Ctype, src: string, rest: seq<Item>, s: nat, n: nat, caps: seq<Cap>): seq<Found>
    decreases |rest|, 1, n
  {
    Results(ct, src, rest, s + n, caps) + if n == 0 then [] else Down(ct, src, rest, s, n - 1, caps)
  }

  // No repetition first, then more.
  function Up(ct: Ctype, src: string, rest: seq<Item>, c: Set, s: nat, caps: seq<Cap>): seq<Found>
    decreases |rest|, 1, |src| - s
  {
    Results(ct, src, rest, s, caps) + if Takes(ct, src, s, c) then Up(ct, src, rest, c, s + 1, caps) else []
  }

  function First(rs: seq<Found>): Found {
    if rs == [] then NotFound else rs[0]
  }

  // `*' and `+' prefer the most repetitions that let the rest of the pattern match,
  lemma {:induction false} MostFirst(ct: Ctype, src: string, rest: seq<Item>, s: nat, n: nat, caps: seq<Cap>, m: nat)
    requires m <= n && Results(ct, src, rest, s + m, caps) != []
    requires forall k {:trigger Results(ct, src, rest, k, caps)} :: s + m < k <= s + n ==>
               Results(ct, src, rest, k, caps) == []
    ensures First(Down(ct, src, rest, s, n, caps)) == First(Results(ct, src, rest, s + m, caps))
    decreases n
  {
    hide Results;
    if m < n {
      assert Results(ct, src, rest, s + n, caps) == [];
      MostFirst(ct, src, rest, s, n - 1, caps, m);
    }
  }

  // and `-' prefers the fewest.
  lemma {:induction false} FewestFirst(ct: Ctype, src: string, rest: seq<Item>, c: Set, s: nat, caps: seq<Cap>, t: nat)
    requires Stretch(ct, src, c, s, t) && Results(ct, src, rest, t, caps) != []
    requires forall k {:trigger Results(ct, src, rest, k, caps)} :: s <= k < t ==> Results(ct, src, rest, k, caps) == []
    ensures First(Up(ct, src, rest, c, s, caps)) == First(Results(ct, src, rest, t, caps))
    decreases t - s
  {
    hide Results, InSet;
    if s < t {
      FewestFirst(ct, src, rest, c, s + 1, caps, t);
    }
  }

  // The list is made of matches and errors.
  lemma {:induction false} SomeFirst(ct: Ctype, src: string, items: seq<Item>, s: nat, caps: seq<Cap>)
    ensures NotFound !in Results(ct, src, items, s, caps)
    decreases |items|, 0, 0
  {
    if items != [] {
      var rest := items[1..];
      hide InSet, BalanceEnd, AtFrontier, Repeats;
      match items[0]
      case One(c) => SomeFirst(ct, src, rest, s + 1, caps);
      case Opt(c) =>
        SomeFirst(ct, src, rest, s + 1, caps);
        SomeFirst(ct, src, rest, s, caps);
      case Star(c) => SomeDown(ct, src, rest, s, Longest(ct, src, s, c), caps);
      case Plus(c) => SomeDown(ct, src, rest, s + 1, Longest(ct, src, s + 1, c), caps);
      case Minus(c) => SomeUp(ct, src, rest, c, s, caps);
      case OpenCap(position) =>
        SomeFirst(ct, src, rest, s, caps + [Cap(s, if position then CAP_POSITION else CAP_UNFINISHED)]);
      case CloseCap => if ToClose(caps) >= 0 { SomeFirst(ct, src, rest, s, Closed(caps, ToClose(caps), s)); }
      case Balance(b, x) =>
        if BalanceEnd(src, s, b, x) >= 0 { SomeFirst(ct, src, rest, BalanceEnd(src, s, b, x), caps); }
      case Frontier(c) => SomeFirst(ct, src, rest, s, caps);
      case Back(l) =>
        var k := Referred(caps, l);
        if k >= 0 && Repeats(src, s, caps[k]) {
          RepeatsLength(src, s, caps[k]);
          SomeFirst(ct, src, rest, s + caps[k].len, caps);
        }
      case AtEnd => SomeFirst(ct, src, rest, s, caps);
      case Broken(_) =>
    }
  }

  lemma {:induction false} SomeDown(ct: Ctype, src: string, rest: seq<Item>, s: nat, n: nat, caps: seq<Cap>)
    ensures NotFound !in Down(ct, src, rest, s, n, caps)
    decreases |rest|, 1, n
  {
    hide Results;
    SomeFirst(ct, src, rest, s + n, caps);
    if n > 0 { SomeDown(ct, src, rest, s, n - 1, caps); }
  }

  lemma {:induction false} SomeUp(ct: Ctype, src: string, rest: seq<Item>, c: Set, s: nat, caps: seq<Cap>)
    ensures NotFound !in Up(ct, src, rest, c, s, caps)
    decreases |rest|, 1, |src| - s
  {
    hide Results, InSet;
    SomeFirst(ct, src, rest, s, caps);
    if Takes(ct, src, s, c) { SomeUp(ct, src, rest, c, s + 1, caps); }
  }

  // ----- matches, in no order -----

  // One item matches src from s to t and turns the captures from caps to caps'.
  ghost predicate Passes(ct: Ctype, src: string, item: Item, s: nat, caps: seq<Cap>, t: nat, caps': seq<Cap>) {
    match item
    case One(c) => Takes(ct, src, s, c) && t == s + 1 && caps' == caps
    case Opt(c) => (t == s || (Takes(ct, src, s, c) && t == s + 1)) && caps' == caps
    case Star(c) => Stretch(ct, src, c, s, t) && caps' == caps
    case Plus(c) => t > s && Stretch(ct, src, c, s, t) && caps' == caps
    case Minus(c) => Stretch(ct, src, c, s, t) && caps' == caps
    case OpenCap(position) =>
      |caps| < MAXCAPTURES && t == s &&
      caps' == caps + [Cap(s, if position then CAP_POSITION else CAP_UNFINISHED)]
    case CloseCap => ToClose(caps) >= 0 && t == s && caps' == Closed(caps, ToClose(caps), s)
    case Balance(b, x) => t == BalanceEnd(src, s, b, x) && caps' == caps
    case Frontier(c) => AtFrontier(ct, src, s, c) && t == s && caps' == caps
    case Back(l) =>
      var k := Referred(caps, l);
      k >= 0 && Repeats(src, s, caps[k]) && t == s + caps[k].len && caps' == caps
    case AtEnd => s == |src| && t == s && caps' == caps
    case Broken(_) => false
  }

  // The items do, one after the other.
  ghost predicate Derives(ct: Ctype, src: string, items: seq<Item>, s: nat, caps: seq<Cap>, e: nat, caps': seq<Cap>)
    decreases |items|
  {
    if items == [] then e == s && caps' == caps
    else
      exists t: nat, caps1 ::
        Passes(ct, src, items[0], s, caps, t, caps1) && Derives(ct, src, items[1..], t, caps1, e, caps')
  }

  // Every character from s to t is in the set.
  predicate Stretch(ct: Ctype, src: string, c: Set, s: nat, t: nat) {
    s <= t && forall k :: s <= k < t ==> Takes(ct, src, k, c)
  }

  lemma LongestIs(ct: Ctype, src: string, s: nat, c: Set, t: nat)
    ensures Stretch(ct, src, c, s, t) <==> s <= t <= s + Longest(ct, src, s, c)
  {
    var m := s + Longest(ct, src, s, c);
    if t > m { assert !Takes(ct, src, m, c); }
  }

  // The list has every match and nothing else.
  lemma {:induction false} ResultsAreAll(ct: Ctype, src: string, items: seq<Item>, s: nat, caps: seq<Cap>, e: nat,
      caps': seq<Cap>)
    ensures Ended(e, caps') in Results(ct, src, items, s, caps) <==> Derives(ct, src, items, s, caps, e, caps')
    decreases |items|, 0, 0
  {
    hide Takes, Stretch, Referred, Longest, Closed, ToClose, Ch, BalanceEnd, Digit, Repeats;
    if items != [] {
      var rest := items[1..];
      assert Results(ct, src, items, s, caps) == ResultsOf(ct, src, items[0], rest, s, caps);
      hide InSet, BalanceEnd, AtFrontier, Repeats;
      match items[0]
      case One(c) => ResultsAreAll(ct, src, rest, s + 1, caps, e, caps');
      case Opt(c) =>
        ResultsAreAll(ct, src, rest, s + 1, caps, e, caps');
        ResultsAreAll(ct, src, rest, s, caps, e, caps');
      case Star(c) => StarAreAll(ct, src, rest, c, s, caps, e, caps');
      case Plus(c) => PlusAreAll(ct, src, rest, c, s, caps, e, caps');
      case Minus(c) => UpAreAll(ct, src, rest, c, s, caps, e, caps');
      case OpenCap(position) =>
        ResultsAreAll(ct, src, rest, s, caps + [Cap(s, if position then CAP_POSITION else CAP_UNFINISHED)], e, caps');
      case CloseCap =>
        if ToClose(caps) >= 0 { ResultsAreAll(ct, src, rest, s, Closed(caps, ToClose(caps), s), e, caps'); }
      case Balance(b, x) =>
        if BalanceEnd(src, s, b, x) >= 0 { ResultsAreAll(ct, src, rest, BalanceEnd(src, s, b, x), caps, e, caps'); }
      case Frontier(c) => ResultsAreAll(ct, src, rest, s, caps, e, caps');
      case Back(l) =>
        var k := Referred(caps, l);
        if k >= 0 && Repeats(src, s, caps[k]) {
          RepeatsLength(src, s, caps[k]);
          ResultsAreAll(ct, src, rest, s + caps[k].len, caps, e, caps');
        }
      case AtEnd => ResultsAreAll(ct, src, rest, s, caps, e, caps');
      case Broken(_) =>
    }
  }

  lemma RepeatsLength(src: string, s: nat, c: Cap)
    requires Repeats(src, s, c)
    ensures c.len >= 0 && s + c.len <= |src|
  {
  }

  // The rest matches after n repetitions or fewer.
  ghost predicate Within(ct: Ctype, src: string, rest: seq<Item>, s: nat, n: nat, caps: seq<Cap>, e: nat,
      caps': seq<Cap>)
  {
    exists t: nat :: s <= t <= s + n && Derives(ct, src, rest, t, caps, e, caps')
  }

  lemma WithinStep(ct: Ctype, src: string, rest: seq<Item>, s: nat, n: nat, caps: seq<Cap>, e: nat, caps': seq<Cap>)
    ensures n == 0 ==> (Within(ct, src, rest, s, n, caps, e, caps') <==> Derives(ct, src, rest, s, caps, e, caps'))
    ensures n > 0 ==>
              (Within(ct, src, rest, s, n, caps, e, caps') <==>
               Within(ct, src, rest, s, n - 1, caps, e, caps') || Derives(ct, src, rest, s + n, caps, e, caps'))
  {
    hide Derives;
    if n > 0 && Derives(ct, src, rest, s + n, caps, e, caps') { assert s <= s + n <= s + n; }
  }

  lemma {:induction false} DownAreAll(ct: Ctype, src: string, rest: seq<Item>, s: nat, n: nat, caps: seq<Cap>, e: nat,
      caps': seq<Cap>)
    ensures Ended(e, caps') in Down(ct, src, rest, s, n, caps) <==> Within(ct, src, rest, s, n, caps, e, caps')
    decreases |rest|, 1, n
  {
    hide Results, Derives, Within, Down;
    DownUnfolds(ct, src, rest, s, n, caps);
    WithinStep(ct, src, rest, s, n, caps, e, caps');
    ResultsAreAll(ct, src, rest, s + n, caps, e, caps');
    if n > 0 {
      DownAreAll(ct, src, rest, s, n - 1, caps, e, caps');
    }
  }

  lemma DownUnfolds(ct: Ctype, src: string, rest: seq<Item>, s: nat, n: nat, caps: seq<Cap>)
    ensures Down(ct, src, rest, s, n, caps) ==
            if n == 0 then Results(ct, src, rest, s, caps)
            else Results(ct, src, rest, s + n, caps) + Down(ct, src, rest, s, n - 1, caps)
  {
  }

  lemma StarAreAll(ct: Ctype, src: string, rest: seq<Item>, c: Set, s: nat, caps: seq<Cap>, e: nat, caps': seq<Cap>)
    ensures Ended(e, caps') in Down(ct, src, rest, s, Longest(ct, src, s, c), caps) <==>
            exists t: nat :: Stretch(ct, src, c, s, t) && Derives(ct, src, rest, t, caps, e, caps')
    decreases |rest|, 2, 0
  {
    hide Down, Derives, Longest, Takes, Stretch;
    var n := Longest(ct, src, s, c);
    DownAreAll(ct, src, rest, s, n, caps, e, caps');
    if t: nat :| Stretch(ct, src, c, s, t) && Derives(ct, src, rest, t, caps, e, caps') {
      LongestIs(ct, src, s, c, t);
    }
    if t: nat :| s <= t <= s + n && Derives(ct, src, rest, t, caps, e, caps') {
      LongestIs(ct, src, s, c, t);
    }
  }

  lemma PlusAreAll(ct: Ctype, src: string, rest: seq<Item>, c: Set, s: nat, caps: seq<Cap>, e: nat, caps': seq<Cap>)
    ensures Ended(e, caps') in (if Takes(ct, src, s, c)
                                then Down(ct, src, rest, s + 1, Longest(ct, src, s + 1, c), caps) else []) <==>
            exists t: nat :: t > s && Stretch(ct, src, c, s, t) && Derives(ct, src, rest, t, caps, e, caps')
    decreases |rest|, 3, 0
  {
    hide Down, Derives, Longest, Takes;
    StarAreAll(ct, src, rest, c, s + 1, caps, e, caps');
    forall t: nat | t > s ensures Stretch(ct, src, c, s, t) <==> Takes(ct, src, s, c) && Stretch(ct, src, c, s + 1, t) {
    }
  }

  lemma {:induction false} UpAreAll(ct: Ctype, src: string, rest: seq<Item>, c: Set, s: nat, caps: seq<Cap>, e: nat,
      caps': seq<Cap>)
    ensures Ended(e, caps') in Up(ct, src, rest, c, s, caps) <==>
            exists t: nat :: Stretch(ct, src, c, s, t) && Derives(ct, src, rest, t, caps, e, caps')
    decreases |rest|, 1, |src| - s
  {
    hide Results, Derives, InSet;
    ResultsAreAll(ct, src, rest, s, caps, e, caps');
    if Takes(ct, src, s, c) {
      UpAreAll(ct, src, rest, c, s + 1, caps, e, caps');
      assert Up(ct, src, rest, c, s, caps) == Results(ct, src, rest, s, caps) + Up(ct, src, rest, c, s + 1, caps);
    } else {
      assert Up(ct, src, rest, c, s, caps) == Results(ct, src, rest, s, caps) + [];
    }
    forall t: nat | t > s ensures Stretch(ct, src, c, s, t) <==> Takes(ct, src, s, c) && Stretch(ct, src, c, s + 1, t) {
    }
    assert Stretch(ct, src, c, s, s);
  }
}
