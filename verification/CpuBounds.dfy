/**
 The effective cpu limit of every container: the smallest limit that is set on the
 way from the root container down. A limit of 0 means "not limited by this container".
 */
module CpuBounds {
  import opened ContainerTree
  import Subtree

  /**
   `CpuLimit`, `CpuLimitBound`, `CpuLimitCur`; the limit the kernel has for the container's cgroup; whether
   the limit was ever set; and whether the container has resources and has the cpu controller.
   */
  datatype Node = Node(limit: nat, bound: nat, cur: nat, applied: nat, isSet: bool, running: bool, cpu: bool)

  type Store = map<Id, Node>

  function At(st: Store, y: Id): Node {
    if y in st then st[y] else Node(0, 0, 0, 0, false, false, false)
  }

  ghost predicate SameOn(ids: set<Id>, st: Store, st': Store) {
    forall y :: y in ids ==> At(st, y) == At(st', y)
  }

  ghost predicate SameOff(ids: set<Id>, st: Store, st': Store) {
    forall y :: y !in ids ==> At(st, y) == At(st', y)
  }

  /** Only bounds, and only of these containers, differ. */
  ghost predicate OnlyBounds(ids: set<Id>, st: Store, st': Store) {
    SameOff(ids, st, st') && forall y :: At(st', y) == At(st, y).(bound := At(st', y).bound)
  }

  /** The bound of a container from its own limit and the bound of its parent. */
  function Bounded(limit: nat, above: nat): nat {
    if limit != 0 && limit < above then limit else above
  }

  /** Bounds are right in a subtree, given the bound above it. */
  predicate Right(t: Tree, above: nat, st: Store)
    decreases t
  {
    && At(st, t.id).bound == Bounded(At(st, t.id).limit, above)
    && forall k :: 0 <= k < |t.children| ==> Right(t.children[k], At(st, t.id).bound, st)
  }

  predicate RightBelow(t: Tree, st: Store) {
    forall k :: 0 <= k < |t.children| ==> Right(t.children[k], At(st, t.id).bound, st)
  }

  ghost predicate SameBoundsOn(ids: set<Id>, st: Store, st': Store) {
    forall y :: y in ids ==> At(st', y).bound == At(st, y).bound && At(st', y).limit == At(st, y).limit
  }

  lemma {:induction false} RightFrame(t: Tree, above: nat, st: Store, st': Store)
    requires Distinct(t) && Right(t, above, st) && SameBoundsOn(Members(t), st, st')
    ensures Right(t, above, st')
    decreases t
  {
    forall k | 0 <= k < |t.children|
      ensures Right(t.children[k], At(st', t.id).bound, st')
    {
      Apart(t, k);
      RightFrame(t.children[k], At(st, t.id).bound, st, st');
    }
  }

  // ---------- right bounds are the smallest limits ----------

  lemma BoundedExtendsMin(above: seq<nat>, limit: nat)
    requires Subtree.MinLimit(above) > 0
    ensures Subtree.MinLimit(above + [limit]) == Bounded(limit, Subtree.MinLimit(above)) > 0
  {
    assert (above + [limit])[..|above|] == above;
  }

  /** Every bound is the smallest limit that is set on the way from the root container down. */
  predicate SmallestLimits(t: Tree, above: seq<nat>, st: Store)
    decreases t
  {
    && At(st, t.id).bound == Subtree.MinLimit(above + [At(st, t.id).limit])
    && forall k :: 0 <= k < |t.children| ==> SmallestLimits(t.children[k], above + [At(st, t.id).limit], st)
  }

  /** The root container is limited, so right bounds are the smallest limits. */
  lemma {:induction false} RightIsSmallest(t: Tree, above: seq<nat>, st: Store)
    requires Subtree.MinLimit(above) > 0 && Right(t, Subtree.MinLimit(above), st)
    ensures SmallestLimits(t, above, st)
    decreases t
  {
    BoundedExtendsMin(above, At(st, t.id).limit);
    forall k | 0 <= k < |t.children|
      ensures SmallestLimits(t.children[k], above + [At(st, t.id).limit], st)
    {
      RightIsSmallest(t.children[k], above + [At(st, t.id).limit], st);
    }
  }

  // ---------- right bounds fall, and follow the bound above ----------

  lemma {:induction false} RightRange(t: Tree, above: nat, st: Store, y: Id)
    requires Distinct(t) && Right(t, above, st) && above > 0 && y in Members(t)
    ensures 0 < At(st, y).bound <= above
    decreases t
  {
    if y != t.id {
      var k := ChildWith(t.children, y);
      Apart(t, k);
      RightRange(t.children[k], At(st, t.id).bound, st, y);
    }
  }

  lemma {:induction false} RightFalls(parent: map<Id, Id>, t: Tree, st: Store, y: Id)
    requires Distinct(t) && Agrees(t, parent) && RightBelow(t, st) && y in MembersOf(t.children)
    ensures y in parent && At(st, y).bound == Bounded(At(st, y).limit, At(st, parent[y]).bound)
    decreases t
  {
    var k := ChildWith(t.children, y);
    Apart(t, k);
    if y != t.children[k].id {
      RightFalls(parent, t.children[k], st, y);
    }
  }

  /** With a smaller bound above and the same limits, every bound is cut off there. */
  lemma {:induction false} BoundsCut(t: Tree, above: nat, above': nat, st: Store, st': Store, y: Id)
    requires Distinct(t) && Right(t, above, st) && Right(t, above', st') && 0 < above' <= above && y in Members(t)
    requires forall z :: z in Members(t) ==> At(st', z).limit == At(st, z).limit
    ensures At(st', y).bound == if At(st, y).bound < above' then At(st, y).bound else above'
    decreases t
  {
    if y != t.id {
      var k := ChildWith(t.children, y);
      Apart(t, k);
      BoundsCut(t.children[k], At(st, t.id).bound, At(st', t.id).bound, st, st', y);
      RightRange(t.children[k], At(st, t.id).bound, st, y);
    }
  }

  /** With the same bound above and the same limits, nothing changes. */
  lemma BoundsSame(t: Tree, st: Store, st': Store, y: Id)
    requires Distinct(t) && RightBelow(t, st) && RightBelow(t, st') && y in MembersOf(t.children)
    requires At(st, t.id).bound == At(st', t.id).bound > 0
    requires forall z :: z in MembersOf(t.children) ==> At(st', z).limit == At(st, z).limit
    ensures At(st', y).bound == At(st, y).bound
  {
    var k := ChildWith(t.children, y);
    Apart(t, k);
    ChildOf(t.children, k);
    BoundsCut(t.children[k], At(st, t.id).bound, At(st, t.id).bound, st, st', y);
    RightRange(t.children[k], At(st, t.id).bound, st, y);
  }

  lemma {:induction false} RightInside(x: Tree, t: Tree, above: nat, st: Store)
    requires Within(x, t) && Right(t, above, st)
    ensures RightBelow(x, st)
    decreases t
  {
    if x != t {
      var k :| 0 <= k < |t.children| && Within(x, t.children[k]);
      RightInside(x, t.children[k], At(st, t.id).bound, st);
    }
  }

  /** Right everywhere, a changed limit at `x`, right again from `x` down: right everywhere. */
  lemma {:induction false} RightGraft(parent: map<Id, Id>, r: Tree, x: Tree, above: nat, st: Store, st': Store)
    requires Distinct(r) && Agrees(r, parent) && Within(x, r) && x != r
    requires Right(r, above, st) && SameOff(Members(x), st, st')
    requires x.id in parent && Right(x, At(st', parent[x.id]).bound, st')
    ensures Right(r, above, st')
    decreases r
  {
    var k :| 0 <= k < |r.children| && Within(x, r.children[k]);
    Apart(r, k);
    WithinMembers(x, r.children[k]);
    forall j | 0 <= j < |r.children|
      ensures Right(r.children[j], At(st', r.id).bound, st')
    {
      if j != k {
        Apart(r, j);
        SiblingsApart(r, j, k);
        RightFrame(r.children[j], At(st, r.id).bound, st, st');
      } else if x != r.children[k] {
        RightGraft(parent, r.children[k], x, At(st, r.id).bound, st, st');
      }
    }
  }
}
