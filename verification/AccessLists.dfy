// ULib's user control lists: groups that inherit from groups, and who may do what.

module AccessLists {
  import opened Options

  type Name = string

  const ACCESS_ALL: Name := "user"

  datatype Group = Group(allow: seq<string>, deny: seq<string>, inheritFrom: Option<seq<Name>>)

  datatype User = User(allow: seq<string>, deny: seq<string>, groups: seq<Name>)

  type Groups = map<Name, Group>

  // The groups that a group inherits from directly.
  function Parents(ucl: Groups, g: Name): seq<Name> {
    if g in ucl && ucl[g].inheritFrom.Some? then ucl[g].inheritFrom.value else []
  }

  predicate Path(ucl: Groups, p: seq<Name>) {
    |p| >= 2 && forall i :: 0 <= i < |p| - 1 ==> p[i + 1] in Parents(ucl, p[i])
  }

  // g inherits from x, in any number of steps.
  ghost predicate Ancestor(ucl: Groups, g: Name, x: Name) {
    exists p :: Path(ucl, p) && p[0] == g && p[|p| - 1] == x
  }

  lemma ParentIsAncestor(ucl: Groups, g: Name, x: Name)
    requires x in Parents(ucl, g)
    ensures Ancestor(ucl, g, x)
  {
    assert Path(ucl, [g, x]);
  }

  lemma AncestorOfParent(ucl: Groups, g: Name, h: Name, x: Name)
    requires h in Parents(ucl, g) && Ancestor(ucl, h, x)
    ensures Ancestor(ucl, g, x)
  {
    var p :| Path(ucl, p) && p[0] == h && p[|p| - 1] == x;
    var q := [g] + p;
    forall i | 0 <= i < |q| - 1 ensures q[i + 1] in Parents(ucl, q[i]) {
      if i > 0 { assert q[i] == p[i - 1] && q[i + 1] == p[i]; }
    }
    assert Path(ucl, q);
  }

  // A list that has the parents of g and of everything in it has all ancestors of g.
  predicate Closed(ucl: Groups, g: Name, xs: seq<Name>, all: seq<Name>) {
    (forall y :: y in Parents(ucl, g) ==> y in all) &&
    forall x, y :: x in xs && y in Parents(ucl, x) ==> y in all
  }

  lemma {:induction false} ClosedHasPath(ucl: Groups, g: Name, xs: seq<Name>, p: seq<Name>)
    requires Closed(ucl, g, xs, xs) && Path(ucl, p) && (p[0] == g || p[0] in xs)
    ensures p[|p| - 1] in xs
    decreases |p|
  {
    assert p[1] in Parents(ucl, p[0]);
    if |p| > 2 {
      forall i | 0 <= i < |p[1..]| - 1 ensures p[1..][i + 1] in Parents(ucl, p[1..][i]) {
        assert p[i + 2] in Parents(ucl, p[i + 1]);
      }
      ClosedHasPath(ucl, g, xs, p[1..]);
    }
  }

  predicate Distinct<T(==)>(xs: seq<T>) {
    forall i, j :: 0 <= i < j < |xs| ==> xs[i] != xs[j]
  }

  // groups are ancestors of g, and all has the parents of those groups and the first n of g.
  ghost predicate Gathered(ucl: Groups, g: Name, groups: seq<Name>, n: nat, all: seq<Name>) {
    n <= |Parents(ucl, g)| && (forall x :: x in groups ==> Ancestor(ucl, g, x)) &&
    (forall y :: y in Parents(ucl, g)[..n] ==> y in all) &&
    forall x, y :: x in groups && y in Parents(ucl, x) ==> y in all
  }

  lemma GatheredNone(ucl: Groups, g: Name, all: seq<Name>)
    ensures Gathered(ucl, g, [], 0, all)
  {
  }

  lemma GatheredOld(ucl: Groups, g: Name, groups: seq<Name>, n: nat, all: seq<Name>)
    requires Gathered(ucl, g, groups, n, all) && n < |Parents(ucl, g)| && Parents(ucl, g)[n] in all
    ensures Gathered(ucl, g, groups, n + 1, all)
  {
    assert Parents(ucl, g)[..n + 1] == Parents(ucl, g)[..n] + [Parents(ucl, g)[n]];
  }

  lemma GatheredMore(ucl: Groups, g: Name, groups: seq<Name>, n: nat, all: seq<Name>, more: seq<Name>)
    requires Gathered(ucl, g, groups, n, all) && n < |Parents(ucl, g)|
    requires forall x :: x in more ==> Ancestor(ucl, Parents(ucl, g)[n], x)
    requires Closed(ucl, Parents(ucl, g)[n], more, all + [Parents(ucl, g)[n]] + more)
    ensures Gathered(ucl, g, groups + [Parents(ucl, g)[n]] + more, n + 1, all + [Parents(ucl, g)[n]] + more)
  {
    hide Ancestor;
    var parent := Parents(ucl, g)[n];
    assert parent in Parents(ucl, g) && Parents(ucl, g)[..n + 1] == Parents(ucl, g)[..n] + [parent];
    ParentIsAncestor(ucl, g, parent);
    forall x | x in more ensures Ancestor(ucl, g, x) {
      AncestorOfParent(ucl, g, parent, x);
    }
  }

  lemma GatheredAll(ucl: Groups, g: Name, groups: seq<Name>, all: seq<Name>)
    requires Gathered(ucl, g, groups, |Parents(ucl, g)|, all)
    ensures (forall x :: x in groups ==> Ancestor(ucl, g, x)) && Closed(ucl, g, groups, all)
  {
    hide Ancestor;
    assert Parents(ucl, g)[..|Parents(ucl, g)|] == Parents(ucl, g);
  }

  // The names that some group inherits from.
  function Universe(ucl: Groups): set<Name> {
    set g, x | g in ucl && x in Parents(ucl, g) :: x
  }

  function Elements<T>(xs: seq<T>): set<T> {
    set x | x in xs
  }

  // The search for inherited groups; all its calls share one list of what they have found.
  class Search {
    const ucl: Groups
    var done: seq<Name>

    constructor (ucl: Groups)
      ensures this.ucl == ucl && done == []
    {
      this.ucl, done := ucl, [];
    }

    // getInherits
    method GetInherits(group: Name) returns (groups: seq<Name>)
      requires Distinct(done) && Elements(done) <= Universe(ucl)
      modifies this
      ensures done == old(done) + groups && Distinct(done) && Elements(done) <= Universe(ucl)
      ensures forall x :: x in groups ==> Ancestor(ucl, group, x)
      ensures Closed(ucl, group, groups, done)
      decreases |Universe(ucl) - Elements(done)|
    {
      hide Ancestor, Universe, Distinct, Gathered;
      groups := [];
      GatheredNone(ucl, group, done);
      if group !in ucl || ucl[group].inheritFrom == None { return; }
      var parents := ucl[group].inheritFrom.value;
      for i := 0 to |parents|
        invariant done == old(done) + groups && Distinct(done) && Elements(done) <= Universe(ucl)
        invariant Gathered(ucl, group, groups, i, done)
      {
        var parent := parents[i];
        assert parent in Parents(ucl, group);
        ghost var found := groups;
        if parent !in done {
          InUniverse(ucl, group, parent);
          DistinctMore(done, parent);
          ghost var before := done;
          done := done + [parent];
          groups := groups + [parent];
          Fewer(Universe(ucl), before, parent, old(done));
          var more := GetInherits(parent);
          groups := groups + more;
          GatheredMore(ucl, group, found, i, before, more);
        } else {
          GatheredOld(ucl, group, groups, i, done);
        }
      }
      GatheredAll(ucl, group, groups, done);
    }
  }

  lemma InUniverse(ucl: Groups, g: Name, x: Name)
    requires x in Parents(ucl, g)
    ensures x in Universe(ucl)
  {
  }

  lemma DistinctMore<T>(xs: seq<T>, x: T)
    requires Distinct(xs) && x !in xs
    ensures Distinct(xs + [x])
  {
  }

  lemma Fewer<T>(all: set<T>, xs: seq<T>, x: T, ys: seq<T>)
    requires x in all && x !in xs && forall y :: y in ys ==> y in xs
    ensures |all - Elements(xs + [x])| < |all - Elements(ys)|
  {
    assert x in all - Elements(ys) && x !in all - Elements(xs + [x]);
    assert all - Elements(xs + [x]) < all - Elements(ys);
    SmallerSet(all - Elements(xs + [x]), all - Elements(ys));
  }

  lemma SmallerSet<T>(a: set<T>, b: set<T>)
    requires a < b
    ensures |a| < |b|
  {
    assert b == a + (b - a);
    assert |b - a| > 0;
  }

  // A search of its own finds exactly the ancestors, each of them once, whatever cycles
  // there are.
  method Inherited(ucl: Groups, group: Name) returns (groups: seq<Name>)
    ensures Distinct(groups) && forall x :: x in groups <==> Ancestor(ucl, group, x)
  {
    hide Distinct;
    var s := new Search(ucl);
    NoneDistinct<Name>();
    groups := s.GetInherits(group);
    assert s.done == groups;
    forall x | Ancestor(ucl, group, x) ensures x in groups {
      var p :| Path(ucl, p) && p[0] == group && p[|p| - 1] == x;
      ClosedHasPath(ucl, group, groups, p);
    }
  }

  lemma NoneDistinct<T>()
    ensures Distinct<T>([])
  {
  }

  // GetGroups(true): the groups of the user, all that these inherit from, and everyone's group.
  method GetGroups(ucl: Groups, user: User) returns (groups: seq<Name>)
    ensures forall x :: x in groups <==>
              x in user.groups || x == ACCESS_ALL || exists g :: g in user.groups && Ancestor(ucl, g, x)
  {
    hide Ancestor, Distinct;
    var toAdd: seq<Name> := [];
    for i := 0 to |user.groups|
      invariant forall x :: x in toAdd <==> exists g :: g in user.groups[..i] && Ancestor(ucl, g, x)
    {
      var more := Inherited(ucl, user.groups[i]);
      ghost var was := toAdd;
      toAdd := toAdd + more;
      forall x ensures x in toAdd <==> exists g :: g in user.groups[..i + 1] && Ancestor(ucl, g, x) {
        InFirst(user.groups, i);
        assert x in toAdd <==> x in was || x in more;
      }
    }
    assert user.groups[..|user.groups|] == user.groups;
    groups := user.groups + toAdd;
    if ACCESS_ALL !in groups { groups := groups + [ACCESS_ALL]; }
  }

  lemma InFirst<T>(xs: seq<T>, i: nat)
    requires i < |xs|
    ensures forall x :: x in xs[..i + 1] <==> x in xs[..i] || x == xs[i]
  {
    assert xs[..i + 1] == xs[..i] + [xs[i]];
  }

  // A deny of the user, or of a group of the user.
  ghost predicate Denied(ucl: Groups, user: User, access: string) {
    access in user.deny || exists g :: g in user.groups && g in ucl && access in ucl[g].deny
  }

  // An allow of the user, of a group of the user, of a group that one of these inherits
  // from, or of everyone's group.
  ghost predicate Allowed(ucl: Groups, user: User, access: string) {
    access in user.allow ||
    exists h :: h in ucl && access in ucl[h].allow &&
      (h in user.groups || h == ACCESS_ALL || exists g :: g in user.groups && Ancestor(ucl, g, h))
  }

  // ucl.query; host is the server, or the player who hosts it when that is not hidden
  method Query(ucl: Groups, user: User, access0: string, lower: string -> string, host: bool) returns (granted: bool)
    ensures granted <==> host || (!Denied(ucl, user, lower(access0)) && Allowed(ucl, user, lower(access0)))
  {
    hide Ancestor;
    if host { return true; }
    var access := lower(access0);
    var denies, allows := [user.deny], [user.allow];
    for i := 0 to |user.groups|
      invariant (exists l :: l in denies && access in l) <==>
                access in user.deny || exists g :: g in user.groups[..i] && g in ucl && access in ucl[g].deny
      invariant (exists l :: l in allows && access in l) <==>
                access in user.allow || exists g :: g in user.groups[..i] && g in ucl && access in ucl[g].allow
    {
      var v := user.groups[i];
      InFirst(user.groups, i);
      if v in ucl {
        InMore(denies, ucl[v].deny);
        InMore(allows, ucl[v].allow);
        denies := denies + [ucl[v].deny];
        allows := allows + [ucl[v].allow];
      }
    }
    assert user.groups[..|user.groups|] == user.groups;
    var othergroups := GetGroups(ucl, user);
    for i := 0 to |othergroups|
      invariant (exists l :: l in allows && access in l) <==>
                || access in user.allow
                || (exists g :: g in user.groups && g in ucl && access in ucl[g].allow)
                || exists g :: g in othergroups[..i] && g in ucl && access in ucl[g].allow
    {
      var group := othergroups[i];
      InFirst(othergroups, i);
      if group !in user.groups && group in ucl {
        InMore(allows, ucl[group].allow);
        allows := allows + [ucl[group].allow];
      }
    }
    assert othergroups[..|othergroups|] == othergroups;
    var denied := HasValue(denies, access);
    if denied { return false; }
    granted := HasValue(allows, access);
  }

  lemma InMore<T>(xs: seq<T>, x: T)
    ensures forall y :: y in xs + [x] <==> y in xs || y == x
  {
  }

  // Is the string in one of the lists?
  method HasValue(lists: seq<seq<string>>, x: string) returns (b: bool)
    ensures b <==> exists l :: l in lists && x in l
  {
    for i := 0 to |lists|
      invariant forall l :: l in lists[..i] ==> x !in l
    {
      InFirst(lists, i);
      if x in lists[i] { return true; }
    }
    assert lists[..|lists|] == lists;
    return false;
  }
}
