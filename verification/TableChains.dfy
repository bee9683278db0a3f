// The hash part of a table: chained scatter table with Brent's variation.

module TableChains {
  // A number that is an integer is a KInt, whatever its size; KNum is any other number.
  datatype Key = KNil | KInt(n: int) | KNum(x: real) | KNaN | KStr(s: string) | KBool(b: bool) | KObj(id: int)

  datatype Value = VNil | V(id: int)

  const NULL: int := -1

  datatype Node = Node(key: Key, val: Value, next: int)

  // mainposition: strings and booleans by the low bits, other types modulo (size - 1) | 1
  function MainPosition(hash: Key -> nat, k: Key, size: nat): (p: nat)
    requires size > 0
    ensures p < size
  {
    if k.KStr? || k.KBool? then hash(k) % size else hash(k) % (if size == 1 then 1 else size - 1)
  }

  // Following k links from p leads to q.
  predicate Leads(node: seq<Node>, p: int, q: int, k: nat)
    decreases k
  {
    if k == 0 then p == q else 0 <= p < |node| && node[p].next != NULL && Leads(node, node[p].next, q, k - 1)
  }

  ghost predicate OnChain(node: seq<Node>, p: int, q: int) {
    exists k: nat :: Leads(node, p, q, k)
  }

  // Links stay inside, never meet, and go up in rank.
  ghost predicate Links(node: seq<Node>, rank: seq<real>) {
    && |rank| == |node|
    && (forall p {:trigger node[p]} :: 0 <= p < |node| ==>
          node[p].next == NULL || (0 <= node[p].next < |node| && rank[p] < rank[node[p].next]))
    && (forall p, q :: 0 <= p < |node| && 0 <= q < |node| && node[p].next == node[q].next && node[p].next != NULL ==>
          p == q)
  }

  // A free node is on no chain.
  ghost predicate FreeNodes(node: seq<Node>) {
    forall p, q {:trigger node[p], node[q]} :: 0 <= p < |node| && 0 <= q < |node| && node[p].key.KNil? ==>
      node[p].val.VNil? && node[p].next == NULL && node[q].next != p
  }

  ghost predicate KeysOnce(node: seq<Node>) {
    forall p, q :: 0 <= p < |node| && 0 <= q < |node| && node[p].key == node[q].key && !node[p].key.KNil? ==> p == q
  }

  // Every key is on the chain that starts at its main position, and if it is not there
  // itself, the key that is there is in its own main position.
  ghost predicate InPlace(hash: Key -> nat, node: seq<Node>, p: int)
    requires 0 <= p < |node|
  {
    var m := MainPosition(hash, node[p].key, |node|);
    OnChain(node, m, p) && (p != m ==> !node[m].key.KNil? && MainPosition(hash, node[m].key, |node|) == m)
  }

  ghost predicate Chained(hash: Key -> nat, node: seq<Node>, rank: seq<real>) {
    && |node| > 0 && Links(node, rank) && FreeNodes(node) && KeysOnce(node)
    && forall p {:trigger InPlace(hash, node, p)} :: 0 <= p < |node| && !node[p].key.KNil? ==> InPlace(hash, node, p)
  }

  // ----- searching -----

  // The index of a key, or NULL.
  function IndexOf(node: seq<Node>, k: Key): (p: int)
    ensures p == NULL ==> forall q :: 0 <= q < |node| ==> node[q].key != k
    ensures p != NULL ==> 0 <= p < |node| && node[p].key == k
  {
    if node == [] then NULL
    else if node[|node| - 1].key == k then |node| - 1
    else IndexOf(node[..|node| - 1], k)
  }

  lemma IndexIs(node: seq<Node>, k: Key, p: int)
    requires KeysOnce(node) && !k.KNil? && 0 <= p < |node| && node[p].key == k
    ensures IndexOf(node, k) == p
  {
  }

  lemma ChainStep(node: seq<Node>, p: int, q: int)
    requires OnChain(node, p, q) && p != q
    ensures 0 <= p < |node| && node[p].next != NULL && OnChain(node, node[p].next, q)
  {
    var k: nat :| Leads(node, p, q, k);
    assert Leads(node, node[p].next, q, k - 1);
  }

  lemma ChainSelf(node: seq<Node>, p: int)
    ensures OnChain(node, p, p)
  {
    assert Leads(node, p, p, 0);
  }

  lemma ChainBack(node: seq<Node>, p: int, q: int)
    requires 0 <= p < |node| && node[p].next != NULL && OnChain(node, node[p].next, q)
    ensures OnChain(node, p, q)
  {
    var k: nat :| Leads(node, node[p].next, q, k);
    assert Leads(node, p, q, k + 1);
  }

  // ----- a new key in its own main position, over a key without a value -----

  lemma {:induction false} SameLeads(node: seq<Node>, node': seq<Node>, p: int, q: int, k: nat)
    requires Leads(node, p, q, k) && |node'| == |node| && forall i :: 0 <= i < |node| ==> node'[i].next == node[i].next
    ensures Leads(node', p, q, k)
    decreases k
  {
    if k > 0 { SameLeads(node, node', node[p].next, q, k - 1); }
  }

  lemma OverwriteKeeps(hash: Key -> nat, node: seq<Node>, rank: seq<real>, mp: int, key: Key)
    requires Chained(hash, node, rank) && 0 <= mp < |node| && mp == MainPosition(hash, key, |node|) && !key.KNil?
    requires node[mp].val.VNil? && forall q :: 0 <= q < |node| ==> node[q].key != key
    ensures Chained(hash, node[mp := node[mp].(key := key)], rank)
  {
    var node' := node[mp := node[mp].(key := key)];
    assert forall i :: 0 <= i < |node| ==> node'[i].next == node[i].next;
    forall p | 0 <= p < |node'| && !node'[p].key.KNil? ensures InPlace(hash, node', p) {
      if p == mp {
        ChainSelf(node', p);
      } else {
        assert InPlace(hash, node, p);
        var m := MainPosition(hash, node[p].key, |node|);
        var k: nat :| Leads(node, m, p, k);
        SameLeads(node, node', m, p, k);
      }
    }
  }

  // ----- a new key in a free node, behind the key that is in its place -----

  lemma {:induction false} InsertLeads(node: seq<Node>, node': seq<Node>, mp: int, n: int, p: int, q: int, k: nat)
    requires Leads(node, p, q, k) && 0 <= mp < |node| == |node'| && 0 <= n < |node| && mp != n && p != n
    requires node'[mp].next == n && node'[n].next == node[mp].next
    requires forall i :: 0 <= i < |node| && i != mp && i != n ==> node'[i].next == node[i].next
    requires forall i :: 0 <= i < |node| ==> node[i].next != n
    ensures OnChain(node', p, q)
    decreases k
  {
    if k == 0 {
      ChainSelf(node', p);
    } else {
      InsertLeads(node, node', mp, n, node[p].next, q, k - 1);
      if p == mp {
        ChainBack(node', n, q);
        ChainBack(node', mp, q);
      } else {
        ChainBack(node', p, q);
      }
    }
  }

  function Between(node: seq<Node>, rank: seq<real>, mp: int): real
    requires 0 <= mp < |node| == |rank|
  {
    var x := node[mp].next;
    if 0 <= x < |rank| then (rank[mp] + rank[x]) / 2.0 else rank[mp] + 1.0
  }

  function Inserted(node: seq<Node>, mp: int, n: int, key: Key): seq<Node>
    requires 0 <= mp < |node| && 0 <= n < |node|
  {
    node[n := Node(key, VNil, node[mp].next)][mp := node[mp].(next := n)]
  }

  lemma InsertKeeps(hash: Key -> nat, node: seq<Node>, rank: seq<real>, mp: int, n: int, key: Key)
    requires Chained(hash, node, rank) && 0 <= mp < |node| && 0 <= n < |node| && node[n].key.KNil?
    requires !node[mp].key.KNil?
    requires mp == MainPosition(hash, key, |node|) == MainPosition(hash, node[mp].key, |node|) && !key.KNil?
    requires forall q :: 0 <= q < |node| ==> node[q].key != key
    ensures Chained(hash, Inserted(node, mp, n, key), rank[n := Between(node, rank, mp)])
  {
    var node', rank' := Inserted(node, mp, n, key), rank[n := Between(node, rank, mp)];
    InsertLinks(node, rank, mp, n, key);
    InsertFree(node, rank, mp, n, key);
    hide Links, FreeNodes, KeysOnce;
    LinkedHere(hash, node, rank, n);
    forall p | 0 <= p < |node'| && !node'[p].key.KNil? ensures InPlace(hash, node', p) {
      if p == n {
        ChainSelf(node', n);
        ChainBack(node', mp, n);
      } else {
        assert InPlace(hash, node, p);
        var m := MainPosition(hash, node[p].key, |node|);
        assert m != n;
        var k: nat :| Leads(node, m, p, k);
        InsertLeads(node, node', mp, n, m, p, k);
      }
    }
  }

  lemma LinkedHere(hash: Key -> nat, node: seq<Node>, rank: seq<real>, n: int)
    requires Chained(hash, node, rank) && 0 <= n < |node| && node[n].key.KNil?
    ensures forall i :: 0 <= i < |node| ==> node[i].next != n
  {
  }

  lemma InsertLinks(node: seq<Node>, rank: seq<real>, mp: int, n: int, key: Key)
    requires Links(node, rank) && FreeNodes(node) && 0 <= mp < |node| && 0 <= n < |node| && node[n].key.KNil?
    requires !node[mp].key.KNil?
    ensures Links(Inserted(node, mp, n, key), rank[n := Between(node, rank, mp)])
  {
  }

  lemma InsertFree(node: seq<Node>, rank: seq<real>, mp: int, n: int, key: Key)
    requires Links(node, rank) && FreeNodes(node) && KeysOnce(node) && 0 <= mp < |node| && 0 <= n < |node|
    requires node[n].key.KNil? && !node[mp].key.KNil? && !key.KNil?
    requires forall q :: 0 <= q < |node| ==> node[q].key != key
    ensures FreeNodes(Inserted(node, mp, n, key)) && KeysOnce(Inserted(node, mp, n, key))
  {
  }

  // ----- a new key in its main position, whose key moves to a free node -----

  // The colliding node at mp goes to n; prev, which pointed to it, points to n.
  function Displaced(node: seq<Node>, mp: int, n: int, prev: int, key: Key): seq<Node>
    requires 0 <= mp < |node| && 0 <= n < |node| && 0 <= prev < |node|
  {
    node[prev := node[prev].(next := n)][n := node[mp]][mp := Node(key, VNil, NULL)]
  }

  lemma {:induction false} DisplaceLeads(node: seq<Node>, node': seq<Node>, mp: int, n: int, prev: int, p: int, q: int,
      k: nat)
    requires Leads(node, p, q, k) && 0 <= mp < |node| == |node'| && 0 <= n < |node| && 0 <= prev < |node|
    requires mp != n && prev != mp && prev != n && p != n && q != n
    requires node[prev].next == mp && node'[prev].next == n && node'[n].next == node[mp].next
    requires forall i :: 0 <= i < |node| && i != mp && i != n && i != prev ==>
               node'[i].next == node[i].next && node[i].next != mp
    requires node[mp].next != mp && forall i :: 0 <= i < |node| ==> node[i].next != n
    ensures OnChain(node', if p == mp then n else p, if q == mp then n else q)
    decreases k
  {
    if k == 0 {
      ChainSelf(node', if p == mp then n else p);
    } else {
      DisplaceLeads(node, node', mp, n, prev, node[p].next, q, k - 1);
      ChainBack(node', if p == mp then n else p, if q == mp then n else q);
    }
  }

  lemma DisplaceKeeps(hash: Key -> nat, node: seq<Node>, rank: seq<real>, mp: int, n: int, prev: int, key: Key)
    requires Chained(hash, node, rank) && 0 <= mp < |node| && 0 <= n < |node| && 0 <= prev < |node|
    requires node[n].key.KNil? && !node[mp].key.KNil?
    requires mp == MainPosition(hash, key, |node|) != MainPosition(hash, node[mp].key, |node|) && !key.KNil?
    requires node[prev].next == mp && forall q :: 0 <= q < |node| ==> node[q].key != key
    ensures Chained(hash, Displaced(node, mp, n, prev, key), rank[n := rank[mp]])
  {
    hide KeysOnce;
    var node', rank' := Displaced(node, mp, n, prev, key), rank[n := rank[mp]];
    assert prev != mp && prev != n && mp != n;
    DisplaceLinks(node, rank, mp, n, prev, key);
    DisplaceFree(hash, node, rank, mp, n, prev, key);
    forall p | 0 <= p < |node'| && !node'[p].key.KNil? ensures InPlace(hash, node', p) {
      if p == mp {
        ChainSelf(node', p);
      } else {
        var p0 := if p == n then mp else p;
        assert InPlace(hash, node, p0);
        var m := MainPosition(hash, node[p0].key, |node|);
        assert m != n && m != mp;
        var k: nat :| Leads(node, m, p0, k);
        DisplaceLeads(node, node', mp, n, prev, m, p0, k);
      }
    }
  }

  lemma DisplaceLinks(node: seq<Node>, rank: seq<real>, mp: int, n: int, prev: int, key: Key)
    requires Links(node, rank) && FreeNodes(node) && 0 <= mp < |node| && 0 <= n < |node| && 0 <= prev < |node|
    requires node[n].key.KNil? && !node[mp].key.KNil? && node[prev].next == mp
    ensures Links(Displaced(node, mp, n, prev, key), rank[n := rank[mp]])
  {
  }

  lemma DisplaceFree(hash: Key -> nat, node: seq<Node>, rank: seq<real>, mp: int, n: int, prev: int, key: Key)
    requires Chained(hash, node, rank) && 0 <= mp < |node| && 0 <= n < |node| && 0 <= prev < |node|
    requires node[n].key.KNil? && !node[mp].key.KNil? && node[prev].next == mp && !key.KNil?
    requires forall q :: 0 <= q < |node| ==> node[q].key != key
    ensures FreeNodes(Displaced(node, mp, n, prev, key)) && KeysOnce(Displaced(node, mp, n, prev, key))
  {
    assert prev != mp && prev != n;
  }
}
