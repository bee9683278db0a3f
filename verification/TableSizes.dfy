// Counting integer keys and choosing the size of the array part.

module TableSizes {
  import opened TableChains

  const MAXBITS: nat := 26
  const MAXASIZE: nat := 67108864  // 2^MAXBITS

  const MAX_INT: nat := 2147483645  // INT_MAX - 2

  function Pow2(i: nat): (r: nat)
    ensures r >= 1 && r > i
  {
    if i == 0 then 1 else 2 * Pow2(i - 1)
  }

  lemma {:induction false} PowUp(i: nat, j: nat)
    requires i <= j
    ensures Pow2(i) <= Pow2(j)
    decreases j - i
  {
    if i < j { PowUp(i, j - 1); }
  }

  lemma PowMax()
    ensures Pow2(MAXBITS) == MAXASIZE
  {
    assert Pow2(5) == 32;
    assert Pow2(10) == 1024;
    assert Pow2(15) == 32768;
    assert Pow2(20) == 1048576;
    assert Pow2(25) == 33554432;
  }

  // ceillog2: the least i with k <= 2^i
  function CeilLog2(k: nat): (i: nat)
    requires k >= 1
  {
    if k == 1 then 0 else 1 + CeilLog2((k + 1) / 2)
  }

  // The slices (2^(i-1), 2^i].
  function Lo(i: nat): nat {
    if i == 0 then 0 else Pow2(i - 1)
  }

  lemma {:induction false} CeilLog2Is(k: nat)
    requires k >= 1
    ensures Lo(CeilLog2(k)) < k <= Pow2(CeilLog2(k))
    decreases k
  {
    if k > 1 { CeilLog2Is((k + 1) / 2); }
  }

  lemma LeastPower(k: nat)
    requires k >= 1
    ensures k <= Pow2(CeilLog2(k)) < 2 * k
  {
    CeilLog2Is(k);
  }

  lemma CeilLog2Only(k: nat, i: nat)
    requires k >= 1
    ensures CeilLog2(k) == i <==> Lo(i) < k <= Pow2(i)
  {
    CeilLog2Is(k);
    var j := CeilLog2(k);
    if i < j { PowUp(i, j - 1); }
    if j < i { PowUp(j, i - 1); }
  }

  // ----- counts -----

  // Non-nil elements with lo < index <= hi, counted from 1.
  function InArray(elems: seq<Value>, lo: nat, hi: nat): nat
    decreases hi
  {
    if hi <= lo then 0
    else InArray(elems, lo, hi - 1) + (if hi <= |elems| && elems[hi - 1] != VNil then 1 else 0)
  }

  predicate IntIn(k: Key, lo: int, hi: int) {
    k.KInt? && lo < k.n <= hi
  }

  // Entries at node `from' or above whose key is an integer in (lo, hi].
  function InNodes(node: seq<Node>, from: nat, lo: int, hi: int): nat
    decreases |node| - from
  {
    if from >= |node| then 0
    else InNodes(node, from + 1, lo, hi) + (if node[from].val != VNil && IntIn(node[from].key, lo, hi) then 1 else 0)
  }

  function Entries(node: seq<Node>, from: nat): nat
    decreases |node| - from
  {
    if from >= |node| then 0 else Entries(node, from + 1) + (if node[from].val != VNil then 1 else 0)
  }

  function One(k: Key, lo: int, hi: int): nat {
    if IntIn(k, lo, hi) then 1 else 0
  }

  // Candidates for the array part in (lo, hi]: elements, entries, and the key ek to come.
  function Candidates(elems: seq<Value>, node: seq<Node>, ek: Key, lo: nat, hi: nat): nat {
    InArray(elems, lo, hi) + InNodes(node, 0, lo, hi) + One(ek, lo, hi)
  }

  lemma {:induction false} InArraySplit(elems: seq<Value>, lo: nat, mid: nat, hi: nat)
    requires lo <= mid <= hi
    ensures InArray(elems, lo, hi) == InArray(elems, lo, mid) + InArray(elems, mid, hi)
    decreases hi - mid
  {
    if mid < hi { InArraySplit(elems, lo, mid, hi - 1); }
  }

  lemma {:induction false} InNodesSplit(node: seq<Node>, from: nat, lo: int, mid: int, hi: int)
    requires lo <= mid <= hi
    ensures InNodes(node, from, lo, hi) == InNodes(node, from, lo, mid) + InNodes(node, from, mid, hi)
    decreases |node| - from
  {
    if from < |node| { InNodesSplit(node, from + 1, lo, mid, hi); }
  }

  lemma CandidatesSplit(elems: seq<Value>, node: seq<Node>, ek: Key, lo: nat, mid: nat, hi: nat)
    requires lo <= mid <= hi
    ensures Candidates(elems, node, ek, lo, hi) ==
            Candidates(elems, node, ek, lo, mid) + Candidates(elems, node, ek, mid, hi)
  {
    InArraySplit(elems, lo, mid, hi);
    InNodesSplit(node, 0, lo, mid, hi);
  }

  lemma {:induction false} NoArrayAbove(elems: seq<Value>, lo: nat, hi: nat)
    requires lo >= |elems|
    ensures InArray(elems, lo, hi) == 0
    decreases hi
  {
    if hi > lo { NoArrayAbove(elems, lo, hi - 1); }
  }

  lemma {:induction false} InNodesEntries(node: seq<Node>, from: nat, lo: int, hi: int)
    ensures InNodes(node, from, lo, hi) <= Entries(node, from)
    decreases |node| - from
  {
    if from < |node| { InNodesEntries(node, from + 1, lo, hi); }
  }

  // ----- at most one candidate per integer -----

  ghost predicate Separate(elems: seq<Value>, node: seq<Node>, ek: Key) {
    && KeysOnce(node)
    && (forall p :: 0 <= p < |node| && IntIn(node[p].key, 0, |elems|) ==> node[p].val.VNil?)
    && (forall p :: 0 <= p < |node| && !ek.KNil? ==> node[p].key != ek)
    && !IntIn(ek, 0, |elems|)
  }

  lemma {:induction false} NoneOf(node: seq<Node>, from: nat, m: int)
    requires forall p :: from <= p < |node| && node[p].key == KInt(m) ==> node[p].val.VNil?
    ensures InNodes(node, from, m - 1, m) == 0
    decreases |node| - from
  {
    if from < |node| { NoneOf(node, from + 1, m); }
  }

  lemma {:induction false} AtMostOne(node: seq<Node>, from: nat, m: int)
    requires KeysOnce(node)
    ensures InNodes(node, from, m - 1, m) <= 1
    decreases |node| - from
  {
    if from < |node| {
      if node[from].key == KInt(m) {
        NoneOf(node, from + 1, m);
      } else {
        AtMostOne(node, from + 1, m);
      }
    }
  }

  lemma {:induction false} CandidatesBound(elems: seq<Value>, node: seq<Node>, ek: Key, m: nat)
    requires Separate(elems, node, ek)
    ensures Candidates(elems, node, ek, 0, m) <= m
    decreases m
  {
    if m > 0 {
      CandidatesBound(elems, node, ek, m - 1);
      CandidatesSplit(elems, node, ek, 0, m - 1, m);
      AtMostOne(node, 0, m);
      if m <= |elems| || ek == KInt(m) { NoneOf(node, 0, m); }
      assert InArray(elems, m - 1, m) == if m <= |elems| && elems[m - 1] != VNil then 1 else 0;
    } else {
      InNodesEmpty(node, 0, 0);
    }
  }

  lemma {:induction false} InNodesEmpty(node: seq<Node>, from: nat, m: int)
    ensures InNodes(node, from, m, m) == 0
    decreases |node| - from
  {
    if from < |node| { InNodesEmpty(node, from + 1, m); }
  }

  // ----- counting -----

  method CountInt(key: Key, nums: array<int>) returns (one: int)
    requires nums.Length == MAXBITS + 1
    modifies nums
    ensures one == One(key, 0, MAXASIZE)
    ensures forall i :: 0 <= i <= MAXBITS ==> nums[i] == old(nums[i]) + One(key, Lo(i), Pow2(i))
  {
    hide Pow2, Lo;
    OneSlice(key);
    if key.KInt? && 0 < key.n <= MAXASIZE {
      var i := CeilLog2(key.n);
      nums[i] := nums[i] + 1;
      return 1;
    }
    return 0;
  }

  lemma OneSlice(key: Key)
    ensures IntIn(key, 0, MAXASIZE) ==> CeilLog2(key.n) <= MAXBITS
    ensures forall i :: 0 <= i <= MAXBITS ==>
      One(key, Lo(i), Pow2(i)) == if IntIn(key, 0, MAXASIZE) && i == CeilLog2(key.n) then 1 else 0
  {
    PowMax();
    forall i | 0 <= i <= MAXBITS
      ensures One(key, Lo(i), Pow2(i)) == if IntIn(key, 0, MAXASIZE) && i == CeilLog2(key.n) then 1 else 0
    {
      PowUp(i, MAXBITS);
      if key.KInt? && key.n >= 1 { CeilLog2Only(key.n, i); }
    }
    if IntIn(key, 0, MAXASIZE) { AtMostMaxBits(key.n); }
  }

  lemma AtMostMaxBits(k: nat)
    requires k >= 1
    ensures CeilLog2(k) <= MAXBITS <==> k <= MAXASIZE
  {
    PowMax();
    CeilLog2Is(k);
    var j := CeilLog2(k);
    if j <= MAXBITS { PowUp(j, MAXBITS); } else { PowUp(MAXBITS, j - 1); }
  }

  // The elements of slice i, when the slices below it are done.
  function Bounded(elems: seq<Value>, m: nat): nat {
    if m <= |elems| then m else |elems|
  }

  lemma SliceOfArray(elems: seq<Value>, i: nat)
    ensures Lo(i) <= Pow2(i)
    ensures InArray(elems, Lo(i), Pow2(i)) == InArray(elems, Bounded(elems, Lo(i)), Bounded(elems, Pow2(i)))
    ensures InArray(elems, 0, Bounded(elems, Pow2(i))) ==
            InArray(elems, 0, Bounded(elems, Lo(i))) + InArray(elems, Lo(i), Pow2(i))
  {
    var lo, hi := Lo(i), Pow2(i);
    if |elems| <= lo {
      NoArrayAbove(elems, lo, hi);
    } else {
      if |elems| < hi {
        InArraySplit(elems, lo, |elems|, hi);
        NoArrayAbove(elems, |elems|, hi);
      }
      InArraySplit(elems, 0, lo, Bounded(elems, hi));
    }
  }

  lemma SlicesAbove(elems: seq<Value>, i: nat)
    requires |elems| <= Lo(i)
    ensures forall j :: i <= j ==> InArray(elems, Lo(j), Pow2(j)) == 0
  {
    forall j | i <= j ensures InArray(elems, Lo(j), Pow2(j)) == 0 {
      if i < j { PowUp(i, j - 1); }
      if i > 0 { PowUp(i - 1, i); }
      NoArrayAbove(elems, Lo(j), Pow2(j));
    }
  }

  // numusearray: the elements, slice by slice
  // The inner loop of numusearray: the elements from i to lim.
  method CountSlice(elems: seq<Value>, i0: nat, lim: nat) returns (lc: nat)
    requires 0 < i0 <= lim + 1 && lim <= |elems|
    ensures lc == InArray(elems, i0 - 1, lim)
  {
    lc := 0;
    var i := i0;
    while i <= lim
      invariant i0 <= i <= lim + 1
      invariant lc == InArray(elems, i0 - 1, i - 1)
    {
      if elems[i - 1] != VNil { lc := lc + 1; }
      i := i + 1;
    }
  }

  method NumUseArray(elems: seq<Value>, nums: array<int>) returns (ause: int)
    requires nums.Length == MAXBITS + 1 && |elems| <= MAXASIZE
    modifies nums
    ensures ause == InArray(elems, 0, |elems|)
    ensures forall j :: 0 <= j <= MAXBITS ==> nums[j] == old(nums[j]) + InArray(elems, Lo(j), Pow2(j))
  {
    hide Pow2, Lo, InArray;
    FirstSlice();
    NoneBelow(elems);
    NextSlice(MAXBITS);
    PowMax();
    var i, lg, ttlg := 1, 0, 1;
    ause := 0;
    while lg <= MAXBITS
      invariant lg <= MAXBITS + 1 && ttlg == Pow2(lg) && i == Bounded(elems, Lo(lg)) + 1
      invariant ause == InArray(elems, 0, Bounded(elems, Lo(lg)))
      invariant forall j :: 0 <= j < lg ==> nums[j] == old(nums[j]) + InArray(elems, Lo(j), Pow2(j))
      invariant forall j :: lg <= j <= MAXBITS ==> nums[j] == old(nums[j])
    {
      SliceOfArray(elems, lg);
      NextSlice(lg);
      var lc;
      var lim := ttlg;
      if lim > |elems| {
        lim := |elems|;
        if i > lim {
          SlicesAbove(elems, lg);
          return;
        }
      }
      lc := CountSlice(elems, i, lim);
      i := lim + 1;
      nums[lg] := nums[lg] + lc;
      ause := ause + lc;
      lg, ttlg := lg + 1, ttlg * 2;
    }
  }

  lemma NoneBelow(elems: seq<Value>)
    ensures InArray(elems, 0, 0) == 0
  {
  }

  lemma FirstSlice()
    ensures Pow2(0) == 1 && Lo(0) == 0
  {
  }

  lemma NextSlice(i: nat)
    ensures Lo(i + 1) == Pow2(i) && Pow2(i + 1) == 2 * Pow2(i)
  {
  }

  // numusehash: the entries, backwards
  method NumUseHash(node: seq<Node>, nums: array<int>, pnasize: int) returns (totaluse: int, pnasize': int)
    requires nums.Length == MAXBITS + 1
    modifies nums
    ensures totaluse == Entries(node, 0) && pnasize' == pnasize + InNodes(node, 0, 0, MAXASIZE)
    ensures forall j :: 0 <= j <= MAXBITS ==> nums[j] == old(nums[j]) + InNodes(node, 0, Lo(j), Pow2(j))
  {
    hide Pow2, Lo;
    var ause, i := 0, |node|;
    totaluse := 0;
    while i > 0
      invariant 0 <= i <= |node|
      invariant totaluse == Entries(node, i) && ause == InNodes(node, i, 0, MAXASIZE)
      invariant forall j :: 0 <= j <= MAXBITS ==> nums[j] == old(nums[j]) + InNodes(node, i, Lo(j), Pow2(j))
    {
      i := i - 1;
      if node[i].val != VNil {
        var one := CountInt(node[i].key, nums);
        ause := ause + one;
        totaluse := totaluse + 1;
      }
    }
    pnasize' := pnasize + ause;
  }

  // ----- computesizes -----

  function Sum(nums: seq<int>, n: nat): int
    requires n <= |nums|
  {
    if n == 0 then 0 else Sum(nums, n - 1) + nums[n - 1]
  }

  // What the counters mean: slice by slice.
  ghost predicate Counted(nums: seq<int>, elems: seq<Value>, node: seq<Node>, ek: Key) {
    |nums| == MAXBITS + 1 && forall i :: 0 <= i <= MAXBITS ==> nums[i] == Candidates(elems, node, ek, Lo(i), Pow2(i))
  }

  lemma {:induction false} SumIs(nums: seq<int>, elems: seq<Value>, node: seq<Node>, ek: Key, i: nat)
    requires Counted(nums, elems, node, ek) && i <= MAXBITS
    ensures Sum(nums, i + 1) == Candidates(elems, node, ek, 0, Pow2(i))
    decreases i
  {
    if i == 0 {
      assert Sum(nums, 1) == nums[0] == Candidates(elems, node, ek, Lo(0), Pow2(0));
    } else {
      SumIs(nums, elems, node, ek, i - 1);
      CandidatesSplit(elems, node, ek, 0, Pow2(i - 1), Pow2(i));
      assert nums[i] == Candidates(elems, node, ek, Lo(i), Pow2(i));
    }
  }

  // The number of candidates up to each bound.
  ghost function Counts(elems: seq<Value>, node: seq<Node>, ek: Key): nat -> int {
    (m: nat) => Candidates(elems, node, ek, 0, m)
  }

  lemma CountedPrefixes(nums: seq<int>, elems: seq<Value>, node: seq<Node>, ek: Key)
    requires Counted(nums, elems, node, ek) && Separate(elems, node, ek)
    ensures Prefixes(nums, Counts(elems, node, ek))
  {
    forall i {:trigger Pow2(i)} | 0 <= i <= MAXBITS
      ensures Sum(nums, i + 1) == Counts(elems, node, ek)(Pow2(i)) && Counts(elems, node, ek)(Pow2(i)) <= Pow2(i)
    {
      SumIs(nums, elems, node, ek, i);
      CandidatesBound(elems, node, ek, Pow2(i));
    }
  }

  // The largest power of two below 2^m, or 0, of which more than half the slots will be
  // in use, and how many will.
  ghost predicate Best(c: nat -> int, m: nat, n: nat, na: int) {
    && (n == 0 || exists i :: 0 <= i < m && n == Pow2(i))
    && (n == 0 ==> na == 0) && (n > 0 ==> na == c(n) && c(n) > n / 2)
    && forall i {:trigger Pow2(i)} :: 0 <= i < m && c(Pow2(i)) > Pow2(i) / 2 ==> Pow2(i) <= n
  }

  ghost predicate Optimal(c: nat -> int, n: nat, na: int) {
    Best(c, MAXBITS + 1, n, na)
  }

  // Counters and the counts up to each power of two.
  ghost predicate Prefixes(nums: seq<int>, c: nat -> int) {
    |nums| == MAXBITS + 1 && (forall i :: 0 <= i <= MAXBITS ==> nums[i] >= 0) &&
    forall i {:trigger Pow2(i)} :: 0 <= i <= MAXBITS ==> Sum(nums, i + 1) == c(Pow2(i)) && c(Pow2(i)) <= Pow2(i)
  }

  lemma {:induction false} SumUp(nums: seq<int>, i: nat, j: nat)
    requires i <= j <= |nums| && forall k :: 0 <= k < |nums| ==> nums[k] >= 0
    ensures Sum(nums, i) <= Sum(nums, j)
    decreases j - i
  {
    if i < j { SumUp(nums, i, j - 1); }
  }

  method ComputeSizes(nums: seq<int>, narray: nat, ghost c: nat -> int) returns (n: nat, na: int)
    requires Prefixes(nums, c) && narray == c(MAXASIZE)
    ensures Optimal(c, n, na)
  {
    hide Prefixes, Best, Pow2, Sum;
    var i, twotoi, a := 0, 1, 0;
    n, na := 0, 0;
    Start(nums, c);
    while twotoi / 2 < narray
      invariant 0 <= i <= MAXBITS + 1 && twotoi == Pow2(i) && a == Sum(nums, i)
      invariant Best(c, i, n, na)
      decreases MAXBITS + 1 - i
    {
      Slice(nums, c, i);
      var n0, na0 := n, na;
      if nums[i] > 0 {
        a := a + nums[i];
        if a > twotoi / 2 {
          n, na := twotoi, a;
        }
      }
      BestStep(nums, c, i, n0, na0);
      if a == narray {
        AllCounted(nums, c, i);
        BestAtEnd(c, i + 1, n, na);
        return;
      }
      i, twotoi := i + 1, twotoi * 2;
    }
    NoneLarger(nums, c, i);
    BestAtEnd(c, i, n, na);
  }

  lemma Start(nums: seq<int>, c: nat -> int)
    requires Prefixes(nums, c)
    ensures |nums| == MAXBITS + 1 && Sum(nums, 0) == 0 && Pow2(0) == 1 && Best(c, 0, 0, 0)
  {
  }

  // The slice is one of the counted ones; and what comes before it does not fill it by half.
  lemma Slice(nums: seq<int>, c: nat -> int, i: nat)
    requires Prefixes(nums, c) && Pow2(i) / 2 < c(MAXASIZE) && i <= MAXBITS + 1
    ensures i <= MAXBITS && |nums| == MAXBITS + 1 && nums[i] >= 0 && Pow2(i + 1) == 2 * Pow2(i)
    ensures Sum(nums, i + 1) == Sum(nums, i) + nums[i] == c(Pow2(i)) <= Pow2(i)
  {
    PowMax();
    assert Pow2(MAXBITS) >= 1;
    assert Pow2(MAXBITS + 1) == 2 * Pow2(MAXBITS);
    assert Pow2(i) >= 1;
  }

  lemma Doubles(i: nat)
    ensures if i == 0 then Pow2(i) == 1 else Pow2(i) == 2 * Pow2(i - 1)
  {
  }

  lemma BestStep(nums: seq<int>, c: nat -> int, i: nat, n: nat, na: int)
    requires Prefixes(nums, c) && Best(c, i, n, na) && i <= MAXBITS
    ensures var a := Sum(nums, i + 1);
      if nums[i] > 0 && a > Pow2(i) / 2 then Best(c, i + 1, Pow2(i), a) else Best(c, i + 1, n, na)
  {
    hide Pow2;
    Doubles(i);
    forall j | 0 <= j <= i ensures Pow2(j) <= Pow2(i) {
      PowUp(j, i);
    }
  }

  lemma BestAtEnd(c: nat -> int, i: nat, n: nat, na: int)
    requires Best(c, i, n, na) && i <= MAXBITS + 1
    requires forall j {:trigger Pow2(j)} :: i <= j <= MAXBITS ==> c(Pow2(j)) <= Pow2(j) / 2
    ensures Optimal(c, n, na)
  {
  }

  lemma AllCounted(nums: seq<int>, c: nat -> int, i: nat)
    requires Prefixes(nums, c) && i <= MAXBITS && c(MAXASIZE) == Sum(nums, i + 1)
    ensures forall j {:trigger Pow2(j)} :: i + 1 <= j <= MAXBITS ==> c(Pow2(j)) <= Pow2(j) / 2
  {
    PowMax();
    assert Pow2(MAXBITS) >= 1;
    forall j | i < j <= MAXBITS ensures c(Pow2(j)) <= Pow2(j) / 2 {
      assert Pow2(j) >= 1 && Pow2(i) >= 1;
      SumUp(nums, j + 1, MAXBITS + 1);
      SumUp(nums, i + 1, j + 1);
      PowUp(i, j - 1);
    }
  }

  lemma NoneLarger(nums: seq<int>, c: nat -> int, i: nat)
    requires Prefixes(nums, c) && Pow2(i) / 2 >= c(MAXASIZE)
    ensures forall j {:trigger Pow2(j)} :: i <= j <= MAXBITS ==> c(Pow2(j)) <= Pow2(j) / 2
  {
    PowMax();
    assert Pow2(MAXBITS) >= 1;
    forall j | i <= j <= MAXBITS ensures c(Pow2(j)) <= Pow2(j) / 2 {
      assert Pow2(j) >= 1;
      SumUp(nums, j + 1, MAXBITS + 1);
      PowUp(i, j);
    }
  }
}
