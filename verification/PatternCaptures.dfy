// Which text a capture is: what its group of the pattern has matched.

module PatternCaptures {
  import opened PatternItems
  import opened PatternMeaning
  import opened PatternSyntax
  import opened StringSearch

  // With `open' captures still open before them, the items close all of them and their own.
  predicate Balanced(items: seq<Item>, open: nat)
    decreases |items|
  {
    if items == [] then open == 0
    else if items[0] == OpenCap(false) then Balanced(items[1..], open + 1)
    else if items[0] == CloseCap then open > 0 && Balanced(items[1..], open - 1)
    else Balanced(items[1..], open)
  }

  // How many captures the items open.
  function Opens(items: seq<Item>): nat {
    if items == [] then 0 else (if items[0].OpenCap? then 1 else 0) + Opens(items[1..])
  }

  function Unclosed(caps: seq<Cap>): nat {
    if caps == [] then 0
    else Unclosed(caps[..|caps| - 1]) + if caps[|caps| - 1].len == CAP_UNFINISHED then 1 else 0
  }

  lemma {:induction false} UnclosedJoin(a: seq<Cap>, b: seq<Cap>)
    ensures Unclosed(a + b) == Unclosed(a) + Unclosed(b)
    decreases |b|
  {
    if b == [] {
      assert a + b == a;
    } else {
      UnclosedJoin(a, b[..|b| - 1]);
      assert (a + b)[..|a + b| - 1] == a + b[..|b| - 1];
    }
  }

  // ----- one item -----

  lemma {:induction false} ToCloseOwn(outer: seq<Cap>, own: seq<Cap>)
    requires Unclosed(own) > 0
    ensures ToClose(outer + own) == |outer| + ToClose(own) && ToClose(own) >= 0
    decreases |own|
  {
    var all := outer + own;
    assert all[..|all| - 1] == outer + own[..|own| - 1];
    if own[|own| - 1].len != CAP_UNFINISHED { ToCloseOwn(outer, own[..|own| - 1]); }
  }

  lemma {:induction false} OneLess(own: seq<Cap>, l: nat, c: Cap)
    requires l < |own| && own[l].len == CAP_UNFINISHED && c.len != CAP_UNFINISHED
    ensures Unclosed(own[l := c]) == Unclosed(own) - 1
    decreases |own|
  {
    var n := |own| - 1;
    if l == n {
      assert own[l := c][..n] == own[..n];
    } else {
      assert own[l := c][..n] == own[..n][l := c];
      OneLess(own[..n], l, c);
    }
  }

  // An item does nothing to captures that are not open, and an item between balanced ones
  // does nothing to those outside.
  lemma PassesOwn(ct: Ctype, src: string, items: seq<Item>, s: nat, outer: seq<Cap>, own: seq<Cap>, t: nat,
      caps': seq<Cap>) returns (own': seq<Cap>)
    requires items != [] && Balanced(items, Unclosed(own)) && s <= |src| && Fits(src, outer + own, s)
    requires Passes(ct, src, items[0], s, outer + own, t, caps')
    ensures caps' == outer + own' && Balanced(items[1..], Unclosed(own')) && |own'| >= |own|
  {
    hide Takes, Stretch, BalanceEnd, AtFrontier, Repeats, Referred;
    own' := own;
    if items[0].OpenCap? {
      var c := Cap(s, if items[0].position then CAP_POSITION else CAP_UNFINISHED);
      own' := own + [c];
      assert (outer + own) + [c] == outer + own';
      assert own'[..|own'| - 1] == own;
    } else if items[0].CloseCap? {
      own' := OwnCloses(src, s, outer, own);
    }
  }

  lemma OwnCloses(src: string, s: nat, outer: seq<Cap>, own: seq<Cap>) returns (own': seq<Cap>)
    requires Unclosed(own) > 0 && Fits(src, outer + own, s)
    ensures ToClose(outer + own) >= 0 && Closed(outer + own, ToClose(outer + own), s) == outer + own'
    ensures Unclosed(own') == Unclosed(own) - 1 && |own'| == |own|
  {
    ToCloseOwn(outer, own);
    var l := ToClose(own);
    assert (outer + own)[|outer| + l] == own[l];
    assert own[l] in outer + own;
    var c := Cap(own[l].init, s - own[l].init);
    own' := own[l := c];
    OneLess(own, l, c);
    assert (outer + own)[|outer| + l := c] == outer + own';
  }

  // Balanced items leave the captures outside alone, and none of their own is left open.
  lemma {:induction false} OuterStays(ct: Ctype, src: string, items: seq<Item>, s: nat, outer: seq<Cap>, own: seq<Cap>,
      e: nat, caps': seq<Cap>) returns (own': seq<Cap>)
    requires Balanced(items, Unclosed(own)) && s <= |src| && Fits(src, outer + own, s)
    requires Derives(ct, src, items, s, outer + own, e, caps')
    ensures caps' == outer + own' && Unclosed(own') == 0 && s <= e <= |src|
    decreases |items|
  {
    hide Passes, Fits;
    if items == [] {
      own' := own;
    } else {
      var t: nat, caps1 :| Passes(ct, src, items[0], s, outer + own, t, caps1) &&
        Derives(ct, src, items[1..], t, caps1, e, caps');
      var own1 := PassesOwn(ct, src, items, s, outer, own, t, caps1);
      PassesFits(ct, src, items[0], s, outer + own, t, caps1);
      own' := OuterStays(ct, src, items[1..], t, outer, own1, e, caps');
    }
  }

  // A capture that is not open is never changed.
  lemma {:induction false} FinishedStays(ct: Ctype, src: string, items: seq<Item>, s: nat, caps: seq<Cap>, e: nat,
      caps': seq<Cap>, k: nat)
    requires k < |caps| && caps[k].len != CAP_UNFINISHED && Derives(ct, src, items, s, caps, e, caps')
    ensures k < |caps'| && caps'[k] == caps[k]
    decreases |items|
  {
    if items != [] {
      hide Takes, Stretch, BalanceEnd, AtFrontier, Repeats, Referred;
      var t: nat, caps1 :| Passes(ct, src, items[0], s, caps, t, caps1) &&
        Derives(ct, src, items[1..], t, caps1, e, caps');
      assert k < |caps1| && caps1[k] == caps[k];
      FinishedStays(ct, src, items[1..], t, caps1, e, caps', k);
    }
  }

  lemma {:induction false} CapturesCounted(ct: Ctype, src: string, items: seq<Item>, s: nat, caps: seq<Cap>, e: nat,
      caps': seq<Cap>)
    requires Derives(ct, src, items, s, caps, e, caps')
    ensures |caps'| == |caps| + Opens(items)
    decreases |items|
  {
    if items != [] {
      hide Takes, Stretch, BalanceEnd, AtFrontier, Repeats, Referred;
      var t: nat, caps1 :| Passes(ct, src, items[0], s, caps, t, caps1) &&
        Derives(ct, src, items[1..], t, caps1, e, caps');
      CapturesCounted(ct, src, items[1..], t, caps1, e, caps');
    }
  }

  // ----- one part after the other -----

  lemma {:induction false} DerivesSplit(ct: Ctype, src: string, xs: seq<Item>, ys: seq<Item>, s: nat, caps: seq<Cap>,
      e: nat, caps': seq<Cap>) returns (t: nat, caps1: seq<Cap>)
    requires Derives(ct, src, xs + ys, s, caps, e, caps')
    ensures Derives(ct, src, xs, s, caps, t, caps1) && Derives(ct, src, ys, t, caps1, e, caps')
    decreases |xs|
  {
    hide Passes;
    if xs == [] {
      assert xs + ys == ys;
      t, caps1 := s, caps;
    } else {
      assert (xs + ys)[1..] == xs[1..] + ys;
      var u: nat, caps2 :| Passes(ct, src, (xs + ys)[0], s, caps, u, caps2) &&
        Derives(ct, src, (xs + ys)[1..], u, caps2, e, caps');
      t, caps1 := DerivesSplit(ct, src, xs[1..], ys, u, caps2, e, caps');
    }
  }

  lemma {:induction false} DerivesJoin(ct: Ctype, src: string, xs: seq<Item>, ys: seq<Item>, s: nat, caps: seq<Cap>,
      t: nat, caps1: seq<Cap>, e: nat, caps': seq<Cap>)
    requires Derives(ct, src, xs, s, caps, t, caps1) && Derives(ct, src, ys, t, caps1, e, caps')
    ensures Derives(ct, src, xs + ys, s, caps, e, caps')
    decreases |xs|
  {
    hide Passes;
    if xs == [] {
      assert xs + ys == ys;
    } else {
      assert (xs + ys)[1..] == xs[1..] + ys;
      var u: nat, caps2 :| Passes(ct, src, xs[0], s, caps, u, caps2) && Derives(ct, src, xs[1..], u, caps2, t, caps1);
      DerivesJoin(ct, src, xs[1..], ys, u, caps2, t, caps1, e, caps');
    }
  }

  lemma DerivesOne(ct: Ctype, src: string, item: Item, s: nat, caps: seq<Cap>, e: nat, caps': seq<Cap>)
    ensures Derives(ct, src, [item], s, caps, e, caps') <==> Passes(ct, src, item, s, caps, e, caps')
  {
    hide Passes;
    assert [item][1..] == [];
    if Passes(ct, src, item, s, caps, e, caps') { assert Derives(ct, src, [], e, caps', e, caps'); }
  }

  // ----- a group -----

  function Group(xs: seq<Item>): seq<Item> {
    [OpenCap(false)] + xs + [CloseCap]
  }

  // A group matches as what is in it does, with its own capture open meanwhile, and leaves
  // the captures before it, itself with the text it has matched, and its own inner ones.
  lemma GroupMatches(ct: Ctype, src: string, xs: seq<Item>, s: nat, caps: seq<Cap>, e: nat, caps': seq<Cap>)
    requires s <= |src| && Fits(src, caps, s) && Balanced(xs, 0)
    ensures Derives(ct, src, Group(xs), s, caps, e, caps') <==>
            |caps| < MAXCAPTURES && |caps'| > |caps| && caps' == caps + [Cap(s, e - s)] + caps'[|caps| + 1..] &&
            Derives(ct, src, xs, s, caps + [Cap(s, CAP_UNFINISHED)], e,
                    caps + [Cap(s, CAP_UNFINISHED)] + caps'[|caps| + 1..])
  {
    hide Derives;
    var inside := caps + [Cap(s, CAP_UNFINISHED)];
    assert inside + [] == inside && Unclosed([]) == 0;
    hide Derives, Fits, Unclosed;
    if Derives(ct, src, Group(xs), s, caps, e, caps') {
      var t, caps2 := DerivesSplit(ct, src, [OpenCap(false)] + xs, [CloseCap], s, caps, e, caps');
      var u, caps1 := DerivesSplit(ct, src, [OpenCap(false)], xs, s, caps, t, caps2);
      DerivesOne(ct, src, OpenCap(false), s, caps, u, caps1);
      DerivesOne(ct, src, CloseCap, t, caps2, e, caps');
      assert u == s && caps1 == inside && t == e;
      OpenedFits(src, caps, s);
      var own := OuterStays(ct, src, xs, s, inside, [], e, caps2);
      GroupCloses(caps, s, own, e);
      assert caps' == caps + [Cap(s, e - s)] + own;
      assert caps'[|caps| + 1..] == own;
    }
    if |caps| < MAXCAPTURES && |caps'| > |caps| && caps' == caps + [Cap(s, e - s)] + caps'[|caps| + 1..] &&
       Derives(ct, src, xs, s, inside, e, inside + caps'[|caps| + 1..]) {
      var own := caps'[|caps| + 1..];
      OpenedFits(src, caps, s);
      var own' := OuterStays(ct, src, xs, s, inside, [], e, inside + own);
      assert own' == own by { assert (inside + own)[|inside|..] == own && (inside + own')[|inside|..] == own'; }
      GroupCloses(caps, s, own, e);
      DerivesOne(ct, src, OpenCap(false), s, caps, s, inside);
      DerivesOne(ct, src, CloseCap, e, inside + own, e, caps');
      DerivesJoin(ct, src, [OpenCap(false)], xs, s, caps, s, inside, e, inside + own);
      DerivesJoin(ct, src, [OpenCap(false)] + xs, [CloseCap], s, caps, e, inside + own, e, caps');
    }
  }

  lemma OpenedFits(src: string, caps: seq<Cap>, s: nat)
    requires Fits(src, caps, s)
    ensures Fits(src, caps + [Cap(s, CAP_UNFINISHED)], s)
    ensures Fits(src, caps + [Cap(s, CAP_UNFINISHED)] + [], s)
  {
    assert caps + [Cap(s, CAP_UNFINISHED)] + [] == caps + [Cap(s, CAP_UNFINISHED)];
  }

  lemma GroupCloses(caps: seq<Cap>, s: nat, own: seq<Cap>, e: nat)
    requires Unclosed(own) == 0
    ensures var all := caps + [Cap(s, CAP_UNFINISHED)] + own;
            ToClose(all) == |caps| && Closed(all, |caps|, e) == caps + [Cap(s, e - s)] + own
  {
    var mine := [Cap(s, CAP_UNFINISHED)] + own;
    assert caps + [Cap(s, CAP_UNFINISHED)] + own == caps + mine;
    assert [Cap(s, CAP_UNFINISHED)][..0] == [];
    UnclosedJoin([Cap(s, CAP_UNFINISHED)], own);
    ToCloseOwn(caps, mine);
    OnlyFirstOpen(mine);
  }

  lemma {:induction false} OnlyFirstOpen(caps: seq<Cap>)
    requires caps != [] && caps[0].len == CAP_UNFINISHED && Unclosed(caps) == 1
    ensures ToClose(caps) == 0
    decreases |caps|
  {
    if |caps| > 1 {
      var n := |caps| - 1;
      UnclosedFirst(caps[..n]);
      OnlyFirstOpen(caps[..n]);
    }
  }

  lemma {:induction false} UnclosedFirst(caps: seq<Cap>)
    requires caps != [] && caps[0].len == CAP_UNFINISHED
    ensures Unclosed(caps) >= 1
    decreases |caps|
  {
    if |caps| > 1 { UnclosedFirst(caps[..|caps| - 1]); }
  }

  // ----- captures of a whole pattern -----

  // Wherever a group stands in a pattern, its capture is the text that it has matched.
  lemma CaptureIs(ct: Ctype, src: string, before: seq<Item>, xs: seq<Item>, after: seq<Item>, s: nat, e: nat,
      caps: seq<Cap>) returns (i: nat, j: nat, caps1: seq<Cap>, caps2: seq<Cap>)
    requires s <= |src| && Balanced(xs, 0) && Derives(ct, src, before + Group(xs) + after, s, [], e, caps)
    ensures s <= i <= j <= e <= |src| && Fits(src, caps, e)
    ensures Derives(ct, src, before, s, [], i, caps1)
    ensures Derives(ct, src, xs, i, caps1 + [Cap(i, CAP_UNFINISHED)], j, caps2)
    ensures OneCapture(src, caps, Opens(before), s, e) == Done(Text(src[i..j]))
  {
    hide Derives, Fits, OneCapture;
    NoneFits(src, s);
    DerivesFits(ct, src, before + Group(xs) + after, s, [], e, caps);
    var capsj;
    j, capsj := DerivesSplit(ct, src, before + Group(xs), after, s, [], e, caps);
    i, caps1 := DerivesSplit(ct, src, before, Group(xs), s, [], j, capsj);
    DerivesFits(ct, src, before, s, [], i, caps1);
    DerivesFits(ct, src, Group(xs), i, caps1, j, capsj);
    DerivesFits(ct, src, after, j, capsj, e, caps);
    GroupMatches(ct, src, xs, i, caps1, j, capsj);
    caps2 := caps1 + [Cap(i, CAP_UNFINISHED)] + capsj[|caps1| + 1..];
    CapturesCounted(ct, src, before, s, [], i, caps1);
    FinishedStays(ct, src, after, j, capsj, e, caps, |caps1|);
    TextCaptured(src, caps, |caps1|, i, j, s, e);
  }

  lemma TextCaptured(src: string, caps: seq<Cap>, k: nat, i: nat, j: nat, s: nat, e: nat)
    requires s <= e <= |src| && Fits(src, caps, e) && i <= j <= e && k < |caps| && caps[k] == Cap(i, j - i)
    ensures OneCapture(src, caps, k, s, e) == Done(Text(src[i..j]))
  {
  }

  // The capture of `()' is the place where the match then was, counted from 1.
  lemma PlaceIs(ct: Ctype, src: string, before: seq<Item>, after: seq<Item>, s: nat, e: nat, caps: seq<Cap>)
    returns (i: nat, caps1: seq<Cap>)
    requires s <= |src| && Derives(ct, src, before + [OpenCap(true)] + after, s, [], e, caps)
    ensures s <= i <= e <= |src| && Fits(src, caps, e) && Derives(ct, src, before, s, [], i, caps1)
    ensures OneCapture(src, caps, Opens(before), s, e) == Done(Place(i + 1))
  {
    hide Derives, Fits, OneCapture;
    NoneFits(src, s);
    DerivesFits(ct, src, before + [OpenCap(true)] + after, s, [], e, caps);
    var j, capsj := DerivesSplit(ct, src, before + [OpenCap(true)], after, s, [], e, caps);
    i, caps1 := DerivesSplit(ct, src, before, [OpenCap(true)], s, [], j, capsj);
    DerivesOne(ct, src, OpenCap(true), i, caps1, j, capsj);
    DerivesFits(ct, src, before, s, [], i, caps1);
    DerivesFits(ct, src, [OpenCap(true)], i, caps1, j, capsj);
    DerivesFits(ct, src, after, j, capsj, e, caps);
    CapturesCounted(ct, src, before, s, [], i, caps1);
    FinishedStays(ct, src, after, j, capsj, e, caps, |caps1|);
    PlaceCaptured(src, caps, |caps1|, i, s, e);
  }

  lemma PlaceCaptured(src: string, caps: seq<Cap>, k: nat, i: nat, s: nat, e: nat)
    requires s <= e <= |src| && Fits(src, caps, e) && k < |caps| && caps[k] == Cap(i, CAP_POSITION)
    ensures OneCapture(src, caps, k, s, e) == Done(Place(i + 1))
  {
  }

  // ----- a pattern in parentheses -----

  // Items that are complete, and not `$' at the end.
  predicate Whole(items: seq<Item>) {
    forall x :: x in items ==> !x.Broken? && !x.AtEnd?
  }

  function Wrapped(p: string): string {
    "(" + p + ")"
  }

  lemma WrappedCh(p: string, i: nat)
    ensures Ch(Wrapped(p), i + 1) == if i < |p| then p[i] else if i == |p| then ')' else '\0'
  {
  }

  lemma {:induction false} WrappedEnd(p: string, j: nat)
    requires '\0' !in p && BracketEnd(p, j).At?
    ensures BracketEnd(Wrapped(p), j + 1) == At(BracketEnd(p, j).ep + 1)
    decreases if j < |p| then |p| - j else 0
  {
    WrappedCh(p, j);
    WrappedCh(p, j + 1);
    WrappedCh(p, j + 2);
    if j < |p| {
      assert p[j] in p;
      var k := if Ch(p, j) == ESC && Ch(p, j + 1) != '\0' then j + 2 else j + 1;
      if Ch(p, k) != ']' { WrappedEnd(p, k); }
    }
  }

  lemma WrappedClass(p: string, i: nat)
    requires '\0' !in p && i < |p| && ClassEnd(p, i).At?
    ensures ClassEnd(Wrapped(p), i + 1) == At(ClassEnd(p, i).ep + 1)
  {
    hide BracketEnd;
    WrappedCh(p, i);
    WrappedCh(p, i + 1);
    if i + 1 < |p| { assert p[i + 1] in p; }
    if p[i] == '[' { WrappedEnd(p, if Ch(p, i + 1) == '^' then i + 2 else i + 1); }
  }

  lemma {:induction false} WrappedElems(p: string, i: nat, ec: nat)
    requires ec < |p|
    ensures Elems(Wrapped(p), i + 1, ec + 1) == Elems(p, i, ec)
    decreases ec - i
  {
    if i < ec {
      WrappedCh(p, i);
      WrappedCh(p, i + 1);
      WrappedCh(p, i + 2);
      if Ch(p, i) == ESC {
        WrappedElems(p, i + 2, ec);
      } else if Ch(p, i + 1) == '-' && i + 2 < ec {
        WrappedElems(p, i + 3, ec);
      } else {
        WrappedElems(p, i + 1, ec);
      }
    }
  }

  lemma WrappedBracket(p: string, i: nat, ec: nat)
    requires ec < |p|
    ensures BracketAt(Wrapped(p), i + 1, ec + 1) == BracketAt(p, i, ec)
  {
    WrappedCh(p, i + 1);
    WrappedElems(p, i + 2, ec);
    WrappedElems(p, i + 1, ec);
  }

  lemma WrappedSet(p: string, i: nat, ep: nat)
    requires i < |p| && i < ep <= |p| && (p[i] == ESC ==> i + 1 < |p|)
    ensures SetAt(Wrapped(p), i + 1, ep + 1) == SetAt(p, i, ep)
  {
    hide BracketAt;
    WrappedCh(p, i);
    WrappedCh(p, i + 1);
    WrappedBracket(p, i, ep - 1);
  }

  lemma WrappedItem(p: string, i: nat)
    requires '\0' !in p && i < |p|
    requires var (x, next) := ItemAt(p, i); !x.Broken? && !x.AtEnd? && (x == OpenCap(false) ==> next < |p|)
    ensures var (x, next) := ItemAt(p, i); i < next <= |p| && ItemAt(Wrapped(p), i + 1) == (x, next + 1)
  {
    hide ClassEnd, SetAt, BracketAt, Wrapped;
    WrappedCh(p, i);
    WrappedCh(p, i + 1);
    WrappedCh(p, i + 2);
    WrappedCh(p, i + 3);
    assert p[i] in p;
    if p[i] == ESC && Ch(p, i + 1) == 'f' {
      WrappedClass(p, i + 2);
      WrappedBracket(p, i + 2, ClassEnd(p, i + 2).ep - 1);
    } else if ClassEnd(p, i).At? {
      var ep := ClassEnd(p, i).ep;
      if p[i] == ESC { EscapeEnds(p, i); }
      WrappedClass(p, i);
      WrappedSet(p, i, ep);
      WrappedCh(p, ep);
    }
  }

  lemma EscapeEnds(p: string, i: nat)
    requires i < |p| && ClassEnd(p, i).At? && p[i] == ESC
    ensures i + 1 < |p|
  {
  }

  lemma {:induction false} WrappedItems(ct: Ctype, p: string, i: nat, open: nat)
    requires '\0' !in p && i <= |p| && Whole(Items(ct, p, i)) && Balanced(Items(ct, p, i), open)
    ensures Items(ct, Wrapped(p), i + 1) == Items(ct, p, i) + [CloseCap]
    decreases |p| - i
  {
    hide Items, ItemAt, Wrapped;
    WrappedCh(p, i);
    WrappedCh(p, i + 1);
    if i == |p| {
      ItemsEnd(ct, p, i);
      ParenEnds(ct, Wrapped(p), i + 1);
    } else {
      assert p[i] in p;
      var (x, next) := ItemAt(p, i);
      ItemsNext(ct, p, i);
      assert x in Items(ct, p, i) && Items(ct, p, i)[0] == x;
      ItemsEnd(ct, p, next);
      assert Items(ct, p, i)[1..] == Items(ct, p, next);
      WrappedItem(p, i);
      ItemsNext(ct, Wrapped(p), i + 1);
      assert forall y :: y in Items(ct, p, next) ==> y in Items(ct, p, i);
      WrappedItems(ct, p, next, if x == OpenCap(false) then open + 1 else if x == CloseCap then open - 1 else open);
      assert [x] + (Items(ct, p, next) + [CloseCap]) == Items(ct, p, i) + [CloseCap];
    }
  }

  lemma ParenEnds(ct: Ctype, q: string, i: nat)
    requires Ch(q, i) == ')' && Ch(q, i + 1) == '\0'
    ensures Items(ct, q, i) == [CloseCap]
  {
    assert Items(ct, q, i + 1) == [];
  }

  // A complete pattern with all its groups closed, in parentheses, is one group.
  lemma WrappedIsGroup(ct: Ctype, p: string)
    requires p != "" && '\0' !in p && Whole(Items(ct, p, 0)) && Balanced(Items(ct, p, 0), 0)
    ensures Items(ct, Wrapped(p), 0) == Group(Items(ct, p, 0))
  {
    hide ItemAt, Whole;
    var q := Wrapped(p);
    assert q[0] == '(' && q[1] == p[0];
    assert p[0] in p;
    ItemsNext(ct, p, 0);
    if p[0] == ')' { assert ItemAt(p, 0) == (CloseCap, 1) by { CloseAt(p, 0); } }
    assert p[0] != ')';
    assert Items(ct, q, 0) == [OpenCap(false)] + Items(ct, q, 1);
    hide Items;
    WrappedItems(ct, p, 0, 0);
    assert [OpenCap(false)] + (Items(ct, p, 0) + [CloseCap]) == Group(Items(ct, p, 0));
  }

  lemma CloseAt(p: string, i: nat)
    requires i < |p| && p[i] == ')'
    ensures ItemAt(p, i) == (CloseCap, i + 1)
  {
  }

  // string.match with such a pattern in parentheses answers first the whole text it finds.
  lemma MatchWhole(ct: Ctype, src: string, p: string, i: nat, r: Answer)
    requires p != "" && '\0' !in p && Whole(Items(ct, p, 0)) && Balanced(Items(ct, p, 0), 0) && i <= |src|
    requires FindsHit(src, Search(ct, src, Items(ct, Wrapped(p), 0), i, |src|), false, r)
    ensures r.Pushes? ==>
              exists s: nat, e: nat, caps ::
                i <= s <= e <= |src| && Search(ct, src, Items(ct, Wrapped(p), 0), i, |src|) == [Hit(s, e, caps)] &&
                r.vs != [] && r.vs[0] == Text(src[s..e])
  {
    hide Items, Search, Derives, Fits, OneCapture, Never;
    var xs := Items(ct, p, 0);
    WrappedIsGroup(ct, p);
    SearchMeans(ct, src, Group(xs), i, |src|);
    var h := Search(ct, src, Group(xs), i, |src|);
    if r.Pushes? {
      var s, e, caps := h[0].start, h[0].end, h[0].caps;
      NoneFits(src, s);
      GroupMatches(ct, src, xs, s, [], e, caps);
      TextCaptured(src, caps, 0, s, e, s, e);
    }
  }
}
