/**
 `Subtree`, which grows the list it is iterating over backwards, and
 `PropagateDirtyMemLimit`, which relies on the order it produces.
 */
module Subtree {
  import opened ContainerTree

  function IdList(ts: seq<Tree>): (r: seq<Id>)
    ensures |r| == |ts|
    ensures forall i :: 0 <= i < |ts| ==> r[i] == ts[i].id
  {
    seq(|ts|, i requires 0 <= i < |ts| => ts[i].id)
  }

  /**
   The loop of `Subtree`. `base` is the position of the reverse iterator's base:
   the element it denotes is the one before. Children are inserted right before
   that element, and the iterator then steps over the element alone.
   */
  method List(t: Tree) returns (list: seq<Tree>)
    ensures IdList(list) == PostOrder(t)
  {
    list := [t];
    var base := 1;
    assert list[..1] == [] + [t];
    PostOrderOfSnoc([], t);
    while base > 0
      invariant 0 <= base <= |list|
      invariant PostOrderOf(list[..base]) + IdList(list[base..]) == PostOrder(t)
      decreases SizeOf(list[..base])
    {
      ghost var was, at := list, base;
      list, base := InsertChildren(list, base);
      base := base - 1;
      ListStep(was, at, list, base);
    }
    assert list[..0] == [] && list[0..] == list;
  }

  /** One turn of the outer loop: the list as it will be does not change, and less is left to do. */
  lemma ListStep(list: seq<Tree>, base: nat, list': seq<Tree>, base': nat)
    requires 0 < base <= |list| && base' == base - 1 + |list[base - 1].children|
    requires list' == list[..base - 1] + list[base - 1].children + list[base - 1..]
    ensures PostOrderOf(list'[..base']) + IdList(list'[base'..]) == PostOrderOf(list[..base]) + IdList(list[base..])
    ensures SizeOf(list'[..base']) < SizeOf(list[..base])
  {
    var todo, x, seen := list[..base - 1], list[base - 1], list[base..];
    assert list[..base] == todo + [x];
    assert list'[..base'] == todo + x.children;
    assert list'[base'..] == [x] + seen;
    Unfolded(todo, x, seen);
  }

  lemma Unfolded(todo: seq<Tree>, x: Tree, seen: seq<Tree>)
    ensures PostOrderOf(todo + x.children) + IdList([x] + seen) == PostOrderOf(todo + [x]) + IdList(seen)
    ensures SizeOf(todo + x.children) < SizeOf(todo + [x])
  {
    assert IdList([x] + seen) == [x.id] + IdList(seen);
    PostOrderOfSnoc(todo, x);
    PostOrderOfAppend(todo, x.children);
    SizeOfAppend(todo, x.children);
    SizeOfAppend(todo, [x]);
    assert [x][..0] == [];
  }

  /** The inner loop: the base of the iterator moves with the element it follows. */
  method InsertChildren(list: seq<Tree>, base: nat) returns (r: seq<Tree>, b: nat)
    requires 0 < base <= |list|
    ensures r == list[..base - 1] + list[base - 1].children + list[base - 1..]
    ensures b == base + |list[base - 1].children|
  {
    var x := list[base - 1];
    r, b := list, base;
    assert r == list[..base - 1] + x.children[..0] + list[base - 1..];
    for i := 0 to |x.children|
      invariant b == base + i
      invariant r == list[..base - 1] + x.children[..i] + list[base - 1..]
    {
      r := r[..b - 1] + [x.children[i]] + r[b - 1..];
      b := b + 1;
      assert x.children[..i + 1] == x.children[..i] + [x.children[i]];
    }
    assert x.children[..|x.children|] == x.children;
  }

  /** Each member once: no container is listed twice, and none is missed. */
  lemma ListedOnce(t: Tree)
    requires Distinct(t)
    ensures forall x :: x in Members(t) <==> x in PostOrder(t)
    ensures forall i, j :: 0 <= i < |PostOrder(t)| && 0 <= j < |PostOrder(t)| && PostOrder(t)[i] == PostOrder(t)[j] ==> i == j
  {
    PostOrderMembers(t);
  }

  /** Where the root of a subtree stands, and that its descendants stand before it. */
  lemma PlaceOf(x: Tree, t: Tree) returns (n: nat)
    requires Within(x, t)
    ensures |PostOrder(x)| - 1 <= n < |PostOrder(t)| && PostOrder(t)[n] == x.id
    ensures PostOrder(t)[n - (|PostOrder(x)| - 1)..n + 1] == PostOrder(x)
  {
    var a, b := PostOrderBlock(x, t);
    n := |a| + |PostOrder(x)| - 1;
    assert PostOrder(t)[n] == PostOrder(x)[|PostOrder(x)| - 1] == x.id;
  }

  lemma PlaceInside(x: Tree, y: Tree) returns (m: nat)
    requires Within(y, x) && y != x
    ensures m < |PostOrder(x)| - 1 && PostOrder(x)[m] == y.id
  {
    var k :| 0 <= k < |x.children| && Within(y, x.children[k]);
    var c, d := PostOrderBlockOf(x.children, k);
    var p := PlaceOf(y, x.children[k]);
    m := |c| + p;
    assert PostOrderOf(x.children)[m] == PostOrder(x.children[k])[p];
  }

  /** In a list without repetition, what is inside a block comes before what ends it. */
  lemma InsideBlock(s: seq<Id>, block: seq<Id>, n: nat, m: nat, i: nat, j: nat)
    requires NoRepeats(s) && i < |s| && j < |s| && |block| - 1 <= n < |s| && m < |block| - 1
    requires s[n - (|block| - 1)..n + 1] == block && s[i] == s[n] && s[j] == block[m]
    ensures j < i
  {
    var start := n - (|block| - 1);
    assert s[start + m] == s[start..n + 1][m];
    assert i == n && j == start + m;
  }

  /** A container comes after every container below it. */
  lemma AfterDescendants(t: Tree, x: Tree, y: Tree, i: nat, j: nat)
    requires Distinct(t) && Within(x, t) && Within(y, x) && y != x
    requires i < |PostOrder(t)| && PostOrder(t)[i] == x.id
    requires j < |PostOrder(t)| && PostOrder(t)[j] == y.id
    ensures j < i
  {
    var n := PlaceOf(x, t);
    var m := PlaceInside(x, y);
    PostOrderMembers(t);
    InsideBlock(PostOrder(t), PostOrder(x), n, m, i, j);
  }

  // ---------- the user of the reversed order ----------

  /** The bound of a container from its own limit and its parent's bound; 0 is "no limit". */
  function Chosen(limit: nat, above: nat): nat {
    if limit > 0 then
      var b := if limit < above then limit else above;
      if b == 0 then limit else b
    else above
  }

  /** The smallest limit that is set, or 0. */
  function MinLimit(limits: seq<nat>): nat {
    if limits == [] then 0
    else
      var rest, last := MinLimit(limits[..|limits| - 1]), limits[|limits| - 1];
      if last == 0 then rest else if rest == 0 || last < rest then last else rest
  }

  lemma {:induction false} MinLimitIsMinimum(limits: seq<nat>)
    ensures MinLimit(limits) == 0 <==> forall i :: 0 <= i < |limits| ==> limits[i] == 0
    ensures MinLimit(limits) != 0 ==> MinLimit(limits) in limits
    ensures forall i :: 0 <= i < |limits| && limits[i] != 0 ==> MinLimit(limits) <= limits[i]
    decreases |limits|
  {
    if limits != [] {
      var rest := limits[..|limits| - 1];
      MinLimitIsMinimum(rest);
      assert forall i :: 0 <= i < |rest| ==> rest[i] == limits[i];
      assert limits == rest + [limits[|limits| - 1]];
    }
  }

  /** Every bound of the subtree is the smallest limit set on the way from the root container. */
  predicate BoundsRight(t: Tree, above: seq<nat>, limit: map<Id, nat>, bound: map<Id, nat>)
    decreases t
  {
    && t.id in limit && t.id in bound && bound[t.id] == MinLimit(above + [limit[t.id]])
    && forall k :: 0 <= k < |t.children| ==> BoundsRight(t.children[k], above + [limit[t.id]], limit, bound)
  }

  /** The bound follows from the bound of the parent; that of the root container is its limit. */
  predicate Consistent(x: Id, parent: map<Id, Id>, limit: map<Id, nat>, bound: map<Id, nat>) {
    && x in limit && x in bound
    && if x in parent then parent[x] in bound && bound[x] == Chosen(limit[x], bound[parent[x]]) else bound[x] == limit[x]
  }

  ghost predicate AllConsistent(m: set<Id>, parent: map<Id, Id>, limit: map<Id, nat>, bound: map<Id, nat>) {
    forall x :: x in m ==> Consistent(x, parent, limit, bound)
  }

  lemma ConsistentChild(t: Tree, k: nat, parent: map<Id, Id>, limit: map<Id, nat>, bound: map<Id, nat>)
    requires AllConsistent(Members(t), parent, limit, bound) && k < |t.children|
    ensures AllConsistent(Members(t.children[k]), parent, limit, bound)
  {
    ChildOf(t.children, k);
  }

  lemma ChosenExtendsMin(above: seq<nat>, limit: nat)
    ensures MinLimit(above + [limit]) == Chosen(limit, MinLimit(above))
  {
    assert (above + [limit])[..|above|] == above;
  }

  lemma {:induction false} ConsistentIsRight(t: Tree, above: seq<nat>, parent: map<Id, Id>, limit: map<Id, nat>, bound: map<Id, nat>)
    requires Agrees(t, parent) && AllConsistent(Members(t), parent, limit, bound)
    requires if t.id in parent then parent[t.id] in bound && bound[parent[t.id]] == MinLimit(above) else above == []
    ensures BoundsRight(t, above, limit, bound)
    decreases t
  {
    assert t.id in Members(t);
    ChosenExtendsMin(above, limit[t.id]);
    forall k | 0 <= k < |t.children|
      ensures BoundsRight(t.children[k], above + [limit[t.id]], limit, bound)
    {
      ConsistentChild(t, k, parent, limit, bound);
      ConsistentIsRight(t.children[k], above + [limit[t.id]], parent, limit, bound);
    }
  }

  class DirtyLimits {
    const parent: map<Id, Id>
    var limit: map<Id, nat>
    var bound: map<Id, nat>

    constructor (parent: map<Id, Id>, limit: map<Id, nat>, bound: map<Id, nat>)
      ensures this.parent == parent && this.limit == limit && this.bound == bound
    {
      this.parent, this.limit, this.bound := parent, limit, bound;
    }

    /** `ChooseDirtyMemLimit` without its knob write. */
    method Choose(x: Id)
      requires x in limit && (x in parent ==> parent[x] in bound)
      modifies this`bound
      ensures bound == old(bound)[x := if x in parent then Chosen(limit[x], old(bound)[parent[x]]) else limit[x]]
    {
      if x in parent {
        if limit[x] > 0 {
          bound := bound[x := if limit[x] < bound[parent[x]] then limit[x] else bound[parent[x]]];
          if bound[x] == 0 {
            bound := bound[x := limit[x]];
          }
        } else {
          bound := bound[x := bound[parent[x]]];
        }
      } else {
        bound := bound[x := limit[x]];
      }
    }

    /**
     Recomputes the subtree of a container in the reversed order of `List`. `above` are the limits on the way
     down to it, which its parent's bound already reflects.
     */
    method PropagateDirtyMemLimit(t: Tree, ghost above: seq<nat>)
      requires Distinct(t) && Agrees(t, parent)
      requires if t.id in parent then parent[t.id] !in Members(t) && parent[t.id] in bound else above == []
      requires t.id in parent ==> bound[parent[t.id]] == MinLimit(above)
      requires forall x :: x in Members(t) ==> x in limit
      modifies this`bound
      ensures BoundsRight(t, above, limit, bound)
      ensures forall x :: x !in Members(t) ==> (x in bound <==> x in old(bound)) && (x in bound ==> bound[x] == old(bound)[x])
    {
      var list := List(t);
      ghost var order := PostOrder(t);
      PostOrderMembers(t);
      var i := |list|;
      while i > 0
        invariant 0 <= i <= |list|
        invariant t.id in parent ==> parent[t.id] in bound
        invariant DoneFrom(order, i, parent, limit, bound)
        invariant forall x :: x !in Members(t) ==> (x in bound <==> x in old(bound)) && (x in bound ==> bound[x] == old(bound)[x])
      {
        i := i - 1;
        assert list[i].id == order[i] && order[i] in order;
        ParentReady(t, parent, limit, bound, i);
        ghost var before := bound;
        Choose(list[i].id);
        DoneOneMore(t, parent, limit, before, bound, i);
      }
      AllDone(t, parent, limit, bound);
      ConsistentIsRight(t, above, parent, limit, bound);
    }
  }

  /** The containers from position `i` on have got their new bound. */
  ghost predicate DoneFrom(order: seq<Id>, i: nat, parent: map<Id, Id>, limit: map<Id, nat>, bound: map<Id, nat>) {
    forall j :: i <= j < |order| ==> Consistent(order[j], parent, limit, bound)
  }

  lemma ParentReady(t: Tree, parent: map<Id, Id>, limit: map<Id, nat>, bound: map<Id, nat>, i: nat)
    requires Distinct(t) && Agrees(t, parent) && i < |PostOrder(t)|
    requires t.id in parent ==> parent[t.id] !in Members(t) && parent[t.id] in bound
    requires DoneFrom(PostOrder(t), i + 1, parent, limit, bound)
    ensures PostOrder(t)[i] in parent ==> parent[PostOrder(t)[i]] in bound
  {
    var order := PostOrder(t);
    ParentDone(t, parent, i);
    if order[i] != t.id {
      var j :| i < j < |order| && order[j] == parent[order[i]];
      assert Consistent(order[j], parent, limit, bound);
    }
  }

  lemma DoneOneMore(t: Tree, parent: map<Id, Id>, limit: map<Id, nat>, before: map<Id, nat>, bound: map<Id, nat>, i: nat)
    requires Distinct(t) && Agrees(t, parent) && i < |PostOrder(t)|
    requires t.id in parent ==> parent[t.id] !in Members(t)
    requires DoneFrom(PostOrder(t), i + 1, parent, limit, before)
    requires bound.Keys == before.Keys + {PostOrder(t)[i]} && forall x :: x in before && x != PostOrder(t)[i] ==> bound[x] == before[x]
    requires Consistent(PostOrder(t)[i], parent, limit, bound)
    ensures DoneFrom(PostOrder(t), i, parent, limit, bound)
  {
    var order := PostOrder(t);
    ListedOnce(t);
    forall j | i < j < |order|
      ensures Consistent(order[j], parent, limit, bound)
    {
      assert Consistent(order[j], parent, limit, before);
      ParentDone(t, parent, j);
    }
  }

  lemma AllDone(t: Tree, parent: map<Id, Id>, limit: map<Id, nat>, bound: map<Id, nat>)
    requires DoneFrom(PostOrder(t), 0, parent, limit, bound)
    ensures AllConsistent(Members(t), parent, limit, bound)
  {
    PostOrderMembers(t);
    forall x | x in Members(t)
      ensures Consistent(x, parent, limit, bound)
    {
      assert x in PostOrder(t);
      var j :| 0 <= j < |PostOrder(t)| && PostOrder(t)[j] == x;
    }
  }

  /** Read backwards, the order lists the parent of a container first, or the parent is outside. */
  lemma ParentDone(t: Tree, parent: map<Id, Id>, i: nat)
    requires Distinct(t) && Agrees(t, parent) && i < |PostOrder(t)|
    requires t.id in parent ==> parent[t.id] !in Members(t)
    ensures PostOrder(t)[i] == t.id || (PostOrder(t)[i] in parent && parent[PostOrder(t)[i]] in PostOrder(t)[i + 1..])
    ensures PostOrder(t)[i] in parent ==> forall j :: 0 <= j <= i ==> parent[PostOrder(t)[i]] != PostOrder(t)[j]
  {
    var order := PostOrder(t);
    ListedOnce(t);
    PostOrderMembers(t);
    if i == |order| - 1 {
      assert order[i] == t.id;
      forall j | 0 <= j <= i
        ensures order[j] in Members(t)
      {
        assert order[j] in order;
      }
    } else {
      ParentLater(t, parent, i);
    }
  }
}
