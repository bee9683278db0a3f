// table.sort: quicksort with the median of three, recursive on the smaller part only.

module TableSort {
  // An order on values that may take different values for equal ones.
  ghost predicate StrictWeak<T(!new)>(less: (T, T) -> bool) {
    && (forall x :: !less(x, x))
    && (forall x, y :: less(x, y) ==> !less(y, x))
    && (forall x, y, z :: less(x, z) ==> less(x, y) || less(y, z))
  }

  lemma AtMost<T(!new)>(less: (T, T) -> bool, x: T, y: T, z: T)
    requires StrictWeak(less) && !less(y, x) && !less(z, y)
    ensures !less(z, x)
  {
  }

  lemma NotBoth<T(!new)>(less: (T, T) -> bool, x: T, y: T)
    requires StrictWeak(less)
    ensures !less(x, y) || !less(y, x)
  {
  }

  // s' is s with the elements from l to u in some order.
  predicate Permuted<T(==)>(s: seq<T>, s': seq<T>, l: nat, u: int) {
    && l <= u + 1 <= |s| == |s'|
    && s[..l] == s'[..l] && s[u + 1..] == s'[u + 1..]
    && multiset(s[l..u + 1]) == multiset(s'[l..u + 1])
  }

  ghost predicate Sorted<T>(less: (T, T) -> bool, s: seq<T>, l: nat, u: int) {
    l <= u + 1 <= |s| && forall p, q :: l <= p <= q <= u ==> !less(s[q], s[p])
  }

  // From l0 to u0, everything is in order but for what lies between l and u.
  ghost predicate Around<T>(less: (T, T) -> bool, s: seq<T>, l0: nat, l: int, u: int, u0: int) {
    u0 < |s| && forall p, q :: l0 <= p <= q <= u0 && (p < l || q > u) ==> !less(s[q], s[p])
  }

  // Everything from l to m is at most x, everything from m to u at least x.
  ghost predicate Below<T>(less: (T, T) -> bool, s: seq<T>, l: int, m: int, x: T) {
    0 <= l && m < |s| && forall k :: l <= k <= m ==> !less(x, s[k])
  }

  ghost predicate Above<T>(less: (T, T) -> bool, s: seq<T>, m: int, u: int, x: T) {
    0 <= m && u < |s| && forall k :: m <= k <= u ==> !less(s[k], x)
  }

  // ----- permutations -----

  lemma PermutedBack<T>(s: seq<T>, s': seq<T>, l: nat, u: int, k: int) returns (k': int)
    requires Permuted(s, s', l, u) && l <= k <= u
    ensures l <= k' <= u && s[k'] == s'[k]
  {
    assert s'[l..u + 1][k - l] == s'[k];
    assert s'[k] in multiset(s'[l..u + 1]);
    assert s'[k] in s[l..u + 1];
    var i :| 0 <= i < |s[l..u + 1]| && s[l..u + 1][i] == s'[k];
    k' := l + i;
  }

  lemma PermutedOut<T>(s: seq<T>, s': seq<T>, l: nat, u: int, k: int)
    requires Permuted(s, s', l, u) && 0 <= k < |s| && (k < l || k > u)
    ensures s'[k] == s[k]
  {
    if k < l {
      assert s[..l][k] == s'[..l][k];
    } else {
      assert s[u + 1..][k - (u + 1)] == s'[u + 1..][k - (u + 1)];
    }
  }

  lemma PermutedWider<T>(s: seq<T>, s': seq<T>, l: nat, u: int, l0: nat, u0: int)
    requires Permuted(s, s', l, u) && l0 <= l && u <= u0 < |s|
    ensures Permuted(s, s', l0, u0)
  {
    assert s[..l0] == s[..l][..l0] && s'[..l0] == s'[..l][..l0];
    assert s[u0 + 1..] == s[u + 1..][u0 - u..] && s'[u0 + 1..] == s'[u + 1..][u0 - u..];
    var left, right := s[..l][l0..], s[u + 1..][..u0 - u];
    assert s[l0..u0 + 1] == left + s[l..u + 1] + right;
    assert s'[l0..u0 + 1] == left + s'[l..u + 1] + right;
  }

  lemma Swapped<T>(s: seq<T>, i: nat, j: nat, l: nat, u: int)
    requires l <= i <= u < |s| && l <= j <= u
    ensures Permuted(s, s[i := s[j]][j := s[i]], l, u)
  {
    var s' := s[i := s[j]][j := s[i]];
    var t, t' := s[l..u + 1], s'[l..u + 1];
    forall k | 0 <= k < |t| ensures t'[k] == t[i - l := t[j - l]][j - l := t[i - l]][k] {
      assert t'[k] == s'[l + k] && t[k] == s[l + k];
    }
    assert t' == t[i - l := t[j - l]][j - l := t[i - l]];
    assert s[..l] == s'[..l] && s[u + 1..] == s'[u + 1..];
  }

  // ----- the order around a range -----

  lemma AroundPermuted<T>(less: (T, T) -> bool, s: seq<T>, s': seq<T>, l0: nat, l: nat, u: int, u0: int)
    requires Permuted(s, s', l, u) && l0 <= l && u <= u0 && Around(less, s, l0, l, u, u0)
    ensures Around(less, s', l0, l, u, u0)
  {
    forall p, q | l0 <= p <= q <= u0 && (p < l || q > u) ensures !less(s'[q], s'[p]) {
      var p' := p;
      if l <= p <= u { p' := PermutedBack(s, s', l, u, p); } else { PermutedOut(s, s', l, u, p); }
      var q' := q;
      if l <= q <= u { q' := PermutedBack(s, s', l, u, q); } else { PermutedOut(s, s', l, u, q); }
      assert !less(s[q'], s[p']);
    }
  }

  lemma BelowPermuted<T>(less: (T, T) -> bool, s: seq<T>, s': seq<T>, l: nat, u: int, x: T)
    requires Permuted(s, s', l, u) && Below(less, s, l, u, x)
    ensures Below(less, s', l, u, x)
  {
    forall k | l <= k <= u ensures !less(x, s'[k]) {
      var k' := PermutedBack(s, s', l, u, k);
    }
  }

  lemma AbovePermuted<T>(less: (T, T) -> bool, s: seq<T>, s': seq<T>, l: nat, u: int, x: T)
    requires Permuted(s, s', l, u) && Above(less, s, l, u, x)
    ensures Above(less, s', l, u, x)
  {
    forall k | l <= k <= u ensures !less(s'[k], x) {
      var k' := PermutedBack(s, s', l, u, k);
    }
  }

  // When one side of the pivot is sorted, only the other side is left.
  lemma LeftDone<T(!new)>(less: (T, T) -> bool, s: seq<T>, l0: nat, l: nat, m: int, u: int, u0: int)
    requires StrictWeak(less) && l <= m <= u && l0 <= l && u <= u0 && Around(less, s, l0, l, u, u0)
    requires Below(less, s, l, m, s[m]) && Above(less, s, m, u, s[m]) && Sorted(less, s, l, m - 1)
    ensures Around(less, s, l0, m + 1, u, u0)
  {
    hide StrictWeak;
    forall p, q | l0 <= p <= q <= u0 && (p < m + 1 || q > u) ensures !less(s[q], s[p]) {
      if l <= p && q <= u && q >= m { AtMost(less, s[p], s[m], s[q]); }
    }
  }

  lemma RightDone<T(!new)>(less: (T, T) -> bool, s: seq<T>, l0: nat, l: nat, m: int, u: int, u0: int)
    requires StrictWeak(less) && l <= m <= u && l0 <= l && u <= u0 && Around(less, s, l0, l, u, u0)
    requires Below(less, s, l, m, s[m]) && Above(less, s, m, u, s[m]) && Sorted(less, s, m + 1, u)
    ensures Around(less, s, l0, l, m - 1, u0)
  {
    hide StrictWeak;
    forall p, q | l0 <= p <= q <= u0 && (p < l || q > m - 1) ensures !less(s[q], s[p]) {
      if l <= p && q <= u && p <= m { AtMost(less, s[p], s[m], s[q]); }
    }
  }

  // ----- the sort -----

  function Pow2(n: nat): nat {
    if n == 0 then 1 else 2 * Pow2(n - 1)
  }

  predicate Switched<T(==)>(s: seq<T>, s': seq<T>, i: nat, j: nat) {
    && i < |s| == |s'| && j < |s| && s'[i] == s[j] && s'[j] == s[i]
    && forall k :: 0 <= k < |s| && k != i && k != j ==> s'[k] == s[k]
  }

  // set2, after both elements have been read
  method Swap<T>(a: array<T>, i: nat, j: nat, ghost l: nat, ghost u: nat)
    requires l <= i <= u < a.Length && l <= j <= u
    modifies a
    ensures Switched(old(a[..]), a[..], i, j) && Permuted(old(a[..]), a[..], l, u)
  {
    hide Permuted;
    Swapped(a[..], i, j, l, u);
    ghost var s' := a[..][i := a[j]][j := a[i]];
    a[i], a[j] := a[j], a[i];
    assert a[..] == s';
  }

  // The first steps of a round: a[l], a[(l+u)/2] and a[u] are put in order.
  method MedianOfThree<T(!new)>(a: array<T>, less: (T, T) -> bool, l: nat, u: nat)
    requires StrictWeak(less) && l < u < a.Length
    modifies a
    ensures Permuted(old(a[..]), a[..], l, u)
    ensures var m := (l + u) / 2; !less(a[m], a[l]) && !less(a[u], a[m]) && !less(a[u], a[l])
  {
    hide StrictWeak, Permuted;
    ghost var s0 := a[..];
    PermutedNot(s0, l, u);
    NotBoth(less, a[u], a[l]);
    NotBoth(less, a[l], a[l]);
    NotBoth(less, a[u], a[u]);
    if less(a[u], a[l]) { Swap(a, l, u, l, u); }
    if u - l == 1 { return; }
    MedianOfRest(a, less, l, u, s0);
  }

  method MedianOfRest<T(!new)>(a: array<T>, less: (T, T) -> bool, l: nat, u: nat, ghost s0: seq<T>)
    requires StrictWeak(less) && l + 1 < u < a.Length && !less(a[u], a[l]) && Permuted(s0, a[..], l, u)
    modifies a
    ensures Permuted(s0, a[..], l, u)
    ensures var m := (l + u) / 2; !less(a[m], a[l]) && !less(a[u], a[m]) && !less(a[u], a[l])
  {
    hide StrictWeak, Permuted;
    var i := (l + u) / 2;
    ghost var s1 := a[..];
    NotBoth(less, a[i], a[l]);
    NotBoth(less, a[u], a[i]);
    if less(a[i], a[l]) {
      AtMost(less, a[i], a[l], a[u]);
      Swap(a, i, l, l, u);
      PermutedOnce(s0, s1, a[..], l, u);
    } else if less(a[u], a[i]) {
      Swap(a, i, u, l, u);
      PermutedOnce(s0, s1, a[..], l, u);
    }
  }

  // The scans of a round stop at an element that is known to be there, so they stay inside
  // the range, and the error for an invalid order function is never raised.
  method ScanUp<T>(a: array<T>, less: (T, T) -> bool, P: T, i: nat, u: nat, ghost stop: nat) returns (k: nat)
    requires i < stop <= u < a.Length && !less(a[stop], P)
    ensures i < k <= stop && !less(a[k], P) && forall q :: i < q < k ==> less(a[q], P)
  {
    k := i + 1;
    while less(a[k], P)
      invariant i < k <= stop
      invariant forall q :: i < q < k ==> less(a[q], P)
      decreases stop - k
    {
      if k > u { assert false; }
      k := k + 1;
    }
  }

  method ScanDown<T>(a: array<T>, less: (T, T) -> bool, P: T, j: nat, l: nat, ghost stop: nat) returns (k: nat)
    requires l <= stop < j < a.Length && !less(P, a[stop])
    ensures stop <= k < j && !less(P, a[k]) && forall q :: k < q < j ==> less(P, a[q])
  {
    k := j - 1;
    while less(P, a[k])
      invariant stop <= k < j
      invariant forall q :: k < q < j ==> less(P, a[q])
      decreases k
    {
      if k < l { assert false; }
      k := k - 1;
    }
  }

  lemma BelowMore<T(!new)>(less: (T, T) -> bool, s: seq<T>, l: nat, i: nat, k: nat, x: T)
    requires StrictWeak(less) && Below(less, s, l, i, x) && i < k < |s|
    requires forall q :: i < q < k ==> less(s[q], x)
    ensures Below(less, s, l, k - 1, x)
  {
    forall q | l <= q <= k - 1 ensures !less(x, s[q]) {
      NotBoth(less, x, s[q]);
    }
  }

  lemma AboveMore<T(!new)>(less: (T, T) -> bool, s: seq<T>, j: nat, k: nat, u: nat, x: T)
    requires StrictWeak(less) && Above(less, s, j, u, x) && k < j <= u
    requires forall q :: k < q < j ==> less(x, s[q])
    ensures Above(less, s, k + 1, u, x)
  {
    forall q | k + 1 <= q <= u ensures !less(s[q], x) {
      NotBoth(less, s[q], x);
    }
  }

  // The middle steps of a round: the pivot, at u - 1, gets to the place m where nothing
  // before it is greater and nothing after it is less.
  method Partition<T(!new)>(a: array<T>, less: (T, T) -> bool, l: nat, u: nat) returns (m: nat)
    requires StrictWeak(less) && l + 3 <= u < a.Length
    requires !less(a[u - 1], a[l]) && !less(a[u], a[u - 1])
    modifies a
    ensures Permuted(old(a[..]), a[..], l, u)
    ensures l < m < u && Below(less, a[..], l, m, a[m]) && Above(less, a[..], m, u, a[m])
  {
    hide StrictWeak, Permuted, Below, Above, Switched;
    var P := a[u - 1];
    NotBoth(less, P, P);
    var i: nat, j: nat := l, u - 1;
    ghost var s0 := a[..];
    PermutedNot(s0, l, u);
    Ends(less, s0, l, u);
    while true
      invariant l <= i <= j < u && a[u - 1] == P
      invariant i == l <==> j == u - 1
      invariant Permuted(s0, a[..], l, u)
      invariant Below(less, a[..], l, i, P) && Above(less, a[..], j, u, P)
      decreases j - i
    {
      ghost var s := a[..];
      ghost var up, down := if i < j then j else j + 1, if i < j then i else i - 1;
      AtBoth(less, s, l, i, j, u, P, up);
      AtBoth(less, s, l, i, j, u, P, down);
      var i' := ScanUp(a, less, P, i, u, up);
      BelowMore(less, s, l, i, i', P);
      var j' := ScanDown(a, less, P, j, l, down);
      AboveMore(less, s, j, j', u, P);
      i, j := i', j';
      if j < i {
        AboveLess(less, s, j + 1, i, u, P);
        break;
      }
      Swap(a, i, j, l, u);
      PermutedOnce(s0, s, a[..], l, u);
      Exchanged(less, s, a[..], l, u, i, j, P);
    }
    ghost var s := a[..];
    Swap(a, u - 1, i, l, u);
    PermutedOnce(s0, s, a[..], l, u);
    Placed(less, s, a[..], l, u, i, P);
    m := i;
  }

  lemma Ends<T(!new)>(less: (T, T) -> bool, s: seq<T>, l: nat, u: nat)
    requires StrictWeak(less) && l < u < |s| && !less(s[u - 1], s[l]) && !less(s[u], s[u - 1])
    ensures Below(less, s, l, l, s[u - 1]) && Above(less, s, u - 1, u, s[u - 1])
  {
  }

  lemma AtBoth<T>(less: (T, T) -> bool, s: seq<T>, l: nat, i: nat, j: nat, u: nat, x: T, k: nat)
    requires Below(less, s, l, i, x) && Above(less, s, j, u, x)
    ensures l <= k <= i ==> !less(x, s[k])
    ensures j <= k <= u ==> !less(s[k], x)
  {
  }

  lemma AboveLess<T>(less: (T, T) -> bool, s: seq<T>, j: nat, i: nat, u: nat, x: T)
    requires Above(less, s, j, u, x) && j <= i
    ensures Above(less, s, i, u, x)
  {
  }

  lemma Exchanged<T>(less: (T, T) -> bool, s: seq<T>, s': seq<T>, l: nat, u: nat, i: nat, j: nat, x: T)
    requires l < i <= j < u < |s| == |s'| && Below(less, s, l, i - 1, x) && Above(less, s, j + 1, u, x)
    requires Switched(s, s', i, j)
    requires !less(s[i], x) && !less(x, s[j]) && (j < u - 1 ==> s[u - 1] == x)
    ensures Below(less, s', l, i, x) && Above(less, s', j, u, x) && (j < u - 1 ==> s'[u - 1] == x)
  {
  }

  lemma Placed<T(!new)>(less: (T, T) -> bool, s: seq<T>, s': seq<T>, l: nat, u: nat, i: nat, x: T)
    requires l < i < u < |s| == |s'| && !less(x, x) && Below(less, s, l, i - 1, x) && Above(less, s, i, u, x)
    requires s[u - 1] == x && Switched(s, s', u - 1, i)
    ensures s'[i] == x && Below(less, s', l, i, x) && Above(less, s', i, u, x)
  {
  }

  lemma PermutedNot<T>(s: seq<T>, l: nat, u: int)
    requires l <= u + 1 <= |s|
    ensures Permuted(s, s, l, u)
  {
  }

  lemma PermutedOnce<T>(s: seq<T>, s': seq<T>, s'': seq<T>, l: nat, u: int)
    requires Permuted(s, s', l, u) && Permuted(s', s'', l, u)
    ensures Permuted(s, s'', l, u)
  {
  }

  // The median becomes the pivot.
  method Divide<T(!new)>(a: array<T>, less: (T, T) -> bool, l: nat, u: nat) returns (m: nat)
    requires StrictWeak(less) && l + 3 <= u < a.Length
    requires var i := (l + u) / 2; !less(a[i], a[l]) && !less(a[u], a[i])
    modifies a
    ensures Permuted(old(a[..]), a[..], l, u)
    ensures l < m < u && Below(less, a[..], l, m, a[m]) && Above(less, a[..], m, u, a[m])
  {
    hide StrictWeak, Permuted, Below, Above;
    ghost var s0 := a[..];
    Swap(a, (l + u) / 2, u - 1, l, u);
    ghost var s := a[..];
    m := Partition(a, less, l, u);
    PermutedOnce(s0, s, a[..], l, u);
  }

  // The smaller part needs one level less.
  lemma HalfRoom(n: nat, all: nat, room: nat)
    requires 0 < all && 2 * n <= all < Pow2(room)
    ensures room > 0 && n < Pow2(room - 1)
  {
  }

  // auxsort; room is how deep the calls may still nest
  method AuxSort<T(!new)>(a: array<T>, less: (T, T) -> bool, l0: nat, u0: int, ghost room: nat)
    requires StrictWeak(less) && l0 <= u0 + 1 <= a.Length && u0 - l0 + 1 < Pow2(room)
    modifies a
    ensures Permuted(old(a[..]), a[..], l0, u0) && Sorted(less, a[..], l0, u0)
    decreases room
  {
    hide StrictWeak, Permuted, Around, Sorted, Below, Above, Pow2;
    var l, u := l0, u0;
    ghost var s0 := a[..];
    PermutedNot(s0, l0, u0);
    AroundAll(less, s0, l0, u0);
    while l < u
      invariant l0 <= l && u <= u0 && l <= u + 1
      invariant Permuted(s0, a[..], l0, u0) && Around(less, a[..], l0, l, u, u0)
      decreases u - l
    {
      ghost var s1 := a[..];
      MedianOfThree(a, less, l, u);
      ghost var s2 := a[..];
      Deeper(less, s0, s1, s2, l0, l, u, u0);
      if u - l <= 2 {
        FewSorted(less, s2, l0, l, u, u0);
        return;
      }
      var i := Divide(a, less, l, u);
      ghost var s4 := a[..];
      Deeper(less, s0, s2, s4, l0, l, u, u0);
      if i - l < u - i {
        HalfRoom(i - l, u0 - l0 + 1, room);
        AuxSort(a, less, l, i - 1, room - 1);
        LeftSorted(less, s0, s4, a[..], l0, l, i, u, u0);
        l := i + 1;
      } else {
        HalfRoom(u - i, u0 - l0 + 1, room);
        AuxSort(a, less, i + 1, u, room - 1);
        RightSorted(less, s0, s4, a[..], l0, l, i, u, u0);
        u := i - 1;
      }
    }
    AllSorted(less, a[..], l0, l, u, u0);
  }

  // A range of a range is put in another order.
  lemma Deeper<T>(less: (T, T) -> bool, s0: seq<T>, s: seq<T>, s': seq<T>, l0: nat, l: nat, u: int, u0: int)
    requires l0 <= l && u <= u0 && Permuted(s0, s, l0, u0) && Permuted(s, s', l, u) && Around(less, s, l0, l, u, u0)
    ensures Permuted(s0, s', l0, u0) && Around(less, s', l0, l, u, u0)
  {
    PermutedWider(s, s', l, u, l0, u0);
    AroundPermuted(less, s, s', l0, l, u, u0);
  }

  lemma AroundAll<T>(less: (T, T) -> bool, s: seq<T>, l: nat, u: int)
    requires u < |s|
    ensures Around(less, s, l, l, u, u)
  {
  }

  lemma AllSorted<T(!new)>(less: (T, T) -> bool, s: seq<T>, l0: nat, l: nat, u: int, u0: int)
    requires StrictWeak(less) && u <= l && l0 <= u0 + 1 && Around(less, s, l0, l, u, u0)
    ensures Sorted(less, s, l0, u0)
  {
    forall p, q | l0 <= p <= q <= u0 ensures !less(s[q], s[p]) {
      if p >= l && q <= u { assert p == q; }
    }
  }

  // Two or three elements are sorted when the median is in the middle.
  lemma FewSorted<T(!new)>(less: (T, T) -> bool, s: seq<T>, l0: nat, l: nat, u: int, u0: int)
    requires StrictWeak(less) && l0 <= l < u <= u0 && u - l <= 2 && Around(less, s, l0, l, u, u0)
    requires var m := (l + u) / 2; !less(s[m], s[l]) && !less(s[u], s[m]) && !less(s[u], s[l])
    ensures Sorted(less, s, l0, u0)
  {
    hide StrictWeak;
    forall p, q | l0 <= p <= q <= u0 ensures !less(s[q], s[p]) {
      if p >= l && q <= u {
        NotBoth(less, s[p], s[p]);
        if p != q { assert p == l || q == u; }
      }
    }
  }

  lemma LeftSorted<T(!new)>(less: (T, T) -> bool, s0: seq<T>, s: seq<T>, s': seq<T>, l0: nat, l: nat, m: int, u: int,
      u0: int)
    requires StrictWeak(less) && l0 <= l < m < u <= u0 < |s| && Permuted(s0, s, l0, u0) && Around(less, s, l0, l, u, u0)
    requires Below(less, s, l, m, s[m]) && Above(less, s, m, u, s[m])
    requires Permuted(s, s', l, m - 1) && Sorted(less, s', l, m - 1)
    ensures Permuted(s0, s', l0, u0) && Around(less, s', l0, m + 1, u, u0)
  {
    hide StrictWeak, Permuted, Around, Sorted;
    PermutedWider(s, s', l, m - 1, l, u);
    Deeper(less, s0, s, s', l0, l, u, u0);
    BelowPermuted(less, s, s', l, m - 1, s[m]);
    forall k | m <= k <= u ensures s'[k] == s[k] { PermutedOut(s, s', l, m - 1, k); }
    LeftDone(less, s', l0, l, m, u, u0);
  }

  lemma RightSorted<T(!new)>(less: (T, T) -> bool, s0: seq<T>, s: seq<T>, s': seq<T>, l0: nat, l: nat, m: int, u: int,
      u0: int)
    requires StrictWeak(less) && l0 <= l < m < u <= u0 < |s| && Permuted(s0, s, l0, u0) && Around(less, s, l0, l, u, u0)
    requires Below(less, s, l, m, s[m]) && Above(less, s, m, u, s[m])
    requires Permuted(s, s', m + 1, u) && Sorted(less, s', m + 1, u)
    ensures Permuted(s0, s', l0, u0) && Around(less, s', l0, l, m - 1, u0)
  {
    hide StrictWeak, Permuted, Around, Sorted;
    PermutedWider(s, s', m + 1, u, l, u);
    Deeper(less, s0, s, s', l0, l, u, u0);
    AbovePermuted(less, s, s', m + 1, u, s[m]);
    forall k | l <= k <= m ensures s'[k] == s[k] { PermutedOut(s, s', m + 1, u, k); }
    RightDone(less, s', l0, l, m, u, u0);
  }

  // sort: fewer than 2^40 elements are sorted with 40 levels of calls at most
  method Sort<T(!new)>(a: array<T>, less: (T, T) -> bool)
    requires StrictWeak(less) && a.Length < Pow2(40)
    modifies a
    ensures multiset(a[..]) == multiset(old(a[..]))
    ensures forall p, q :: 0 <= p <= q < a.Length ==> !less(a[q], a[p])
  {
    hide StrictWeak, Pow2;
    ghost var s0 := a[..];
    AuxSort(a, less, 0, a.Length - 1, 40);
    assert s0 == s0[0..a.Length] && a[..] == a[..][0..a.Length];
  }
}
